/**
 * The hairstyle classification page (`src/components/Classify.tsx`): the
 * argmax over the server's class probabilities, the guard and error
 * branches of "classify", and the file input. Probabilities are `real`s;
 * `Object.entries` is given as the sequence of (class, probability) pairs in
 * the order JavaScript enumerates them.
 */
module Classify {
  import opened Wrappers
  import opened Forms

  type Entry = (string, real)

  /** The seed of the `reduce` (line 69). */
  const Seed: Entry := ("", 0.0)

  /** The reducer of line 68: the current entry wins only if strictly larger. */
  function Better(best: Entry, current: Entry): Entry {
    if current.1 > best.1 then current else best
  }

  /** `entries.reduce(Better, best)`, folded from the left. */
  function Reduce(entries: seq<Entry>, best: Entry): Entry
    decreases |entries|
  {
    if entries == [] then best else Reduce(entries[1..], Better(best, entries[0]))
  }

  /** Lines 66-70. */
  function Argmax(entries: seq<Entry>): Entry {
    Reduce(entries, Seed)
  }

  /** The fold's result is at least the start value and at least every entry. */
  lemma {:induction false} ReduceBound(entries: seq<Entry>, best: Entry)
    ensures Reduce(entries, best).1 >= best.1
    ensures forall i :: 0 <= i < |entries| ==> Reduce(entries, best).1 >= entries[i].1
    decreases |entries|
  {
    if entries != [] {
      var next := Better(best, entries[0]);
      ReduceBound(entries[1..], next);
      assert forall i :: 1 <= i < |entries| ==> entries[i] == entries[1..][i - 1];
    }
  }

  /**
   * Which entry the fold returns: the start value (`k == -1`) when no entry
   * beats it, otherwise the first entry of the largest value — every earlier
   * entry is strictly smaller, none later is larger.
   */
  lemma {:induction false} ReduceChoice(entries: seq<Entry>, best: Entry) returns (k: int)
    ensures -1 <= k < |entries|
    ensures k == -1 ==> Reduce(entries, best) == best && forall i :: 0 <= i < |entries| ==> entries[i].1 <= best.1
    ensures k >= 0 ==> (Reduce(entries, best) == entries[k] && entries[k].1 > best.1
      && (forall j :: 0 <= j < k ==> entries[j].1 < entries[k].1)
      && (forall j :: k < j < |entries| ==> entries[j].1 <= entries[k].1))
    decreases |entries|
  {
    if entries == [] {
      return -1;
    }
    var next := Better(best, entries[0]);
    var rest := entries[1..];
    var k' := ReduceChoice(rest, next);
    assert forall i :: 1 <= i < |entries| ==> entries[i] == rest[i - 1];
    if k' == -1 {
      if entries[0].1 > best.1 {
        k := 0;
      } else {
        k := -1;
      }
    } else {
      k := k' + 1;
    }
  }

  /** The shown class has at least the probability of every class, and at least 0. */
  lemma ArgmaxIsMaximal(entries: seq<Entry>)
    ensures Argmax(entries).1 >= 0.0
    ensures forall i :: 0 <= i < |entries| ==> Argmax(entries).1 >= entries[i].1
  {
    ReduceBound(entries, Seed);
  }

  /**
   * Among equally likely classes the first one listed is shown: when entry
   * `i` has the largest (positive) probability, the shown entry is the first
   * entry with that probability, at `i` or before it.
   */
  lemma ArgmaxKeepsFirstOfTies(entries: seq<Entry>, i: nat) returns (k: nat)
    requires i < |entries| && entries[i].1 > 0.0
    requires forall j :: 0 <= j < |entries| ==> entries[j].1 <= entries[i].1
    ensures k <= i && Argmax(entries) == entries[k] && entries[k].1 == entries[i].1
    ensures forall j :: 0 <= j < k ==> entries[j].1 < entries[k].1
  {
    var c := ReduceChoice(entries, Seed);
    assert c != -1;
    k := c;
  }

  /** An empty answer, or one without a positive probability, shows the seed `["", 0]`. */
  lemma ArgmaxSeed(entries: seq<Entry>)
    ensures (forall i :: 0 <= i < |entries| ==> entries[i].1 <= 0.0) <==> Argmax(entries) == Seed
  {
    var k := ReduceChoice(entries, Seed);
  }

  // ---------------------------------------------------------------- the page

  const LocalServerUrl: string := "http://127.0.0.1:5000"
  const RemoteServerUrl: string := "http://127.0.0.1:6005"
  const NoFileMessage: string := "请先选择一个文件"

  /** `isRemote ? "远程" : "本地"`. */
  function Where(isRemote: bool): string {
    if isRemote then "远程" else "本地"
  }

  function UploadFailed(isRemote: bool): string {
    Where(isRemote) + "上传失败，请稍后再试。"
  }

  function NoPrediction(isRemote: bool): string {
    "无法获取" + Where(isRemote) + "预测结果"
  }

  function RequestFailed(isRemote: bool): string {
    Where(isRemote) + "分类请求出错，请检查网络连接"
  }

  /** What the result area shows: a message, or the prediction with every class listed. */
  datatype Display = Message(text: string) | Prediction(isRemote: bool, best: Entry, entries: seq<Entry>)

  /** How the request ended: a non-ok status, a JSON body (`None` when it is falsy), or a thrown error. */
  datatype Reply = NotOk | Body(data: Option<seq<Entry>>) | Thrown

  /** The message shown for a reply, or the prediction. */
  function Outcome(isRemote: bool, reply: Reply): (d: Display)
    ensures reply == NotOk ==> d == Message(UploadFailed(isRemote))
    ensures reply == Thrown ==> d == Message(RequestFailed(isRemote))
    ensures reply == Body(None) ==> d == Message(NoPrediction(isRemote))
    ensures reply.Body? && reply.data.Some? ==>
      d.Prediction? && d.isRemote == isRemote && d.entries == reply.data.value && d.best == Argmax(reply.data.value)
  {
    match reply
    case NotOk => Message(UploadFailed(isRemote))
    case Thrown => Message(RequestFailed(isRemote))
    case Body(None) => Message(NoPrediction(isRemote))
    case Body(Some(entries)) => Prediction(isRemote, Argmax(entries), entries)
  }

  class ClassifyPage {
    var file: Option<string>
    var result: Display
    var fileName: string
    var loading: bool
    /** Whether a request is in flight, and for which server. */
    var awaiting: bool
    var remote: bool

    constructor ()
      ensures file.None? && result == Message("") && fileName == NoFileName && !loading && !awaiting
    {
      file, result, fileName, loading, awaiting, remote := None, Message(""), NoFileName, false, false, false;
    }

    /** Lines 31-39: the first file (or none), its name or the placeholder, and the result cleared. */
    method HandleFileChange(files: seq<string>)
      modifies this`file, this`fileName, this`result
      ensures file == (if |files| > 0 then Some(files[0]) else None)
      ensures fileName == ChosenName(files) && result == Message("")
    {
      file := if |files| > 0 then Some(files[0]) else None;
      fileName := ChosenName(files);
      result := Message("");
    }

    /**
     * Lines 41-55: without a file, only the message; otherwise loading
     * starts and the file is posted to the chosen server's `/classify`.
     */
    method HandleClassify(isRemote: bool) returns (request: Option<string>)
      requires !awaiting
      modifies this`result, this`loading, this`awaiting, this`remote
      ensures file.None? ==>
        request.None? && result == Message(NoFileMessage) && loading == old(loading) && !awaiting
      ensures file.Some? ==>
        request == Some((if isRemote then RemoteServerUrl else LocalServerUrl) + "/classify")
        && loading && awaiting && remote == isRemote && result == old(result)
    {
      if file.None? {
        result := Message(NoFileMessage);
        return None;
      }
      loading := true;
      awaiting, remote := true, isRemote;
      request := Some((if isRemote then RemoteServerUrl else LocalServerUrl) + "/classify");
    }

    /** Lines 57-98: the reply decides the result; loading ends whatever happened. */
    method Replied(reply: Reply)
      requires awaiting
      modifies this`result, this`loading, this`awaiting
      ensures result == Outcome(remote, reply) && !loading && !awaiting
    {
      result := Outcome(remote, reply);
      loading := false;
      awaiting := false;
    }
  }
}
