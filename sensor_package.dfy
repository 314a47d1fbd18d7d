/**
 * What the two sensor-package programs (stream-frames.cpp and
 * capture-single-image.cpp) share: bytes, the reply of the one-shot HTTP
 * helper, the parsed camera list, and the rule that picks a camera.
 */
module SensorPackage {

  import opened Wrappers

  /** One byte of an HTTP body or of the TCP frame stream. */

  type byte = b: int | 0 <= b < 0x100

  /** HttpResponseData: the status code and the body bytes of one reply. */
  datatype HttpResponse = HttpResponse(statusCode: int, body: seq<byte>)

  /**
   * One element of the camera-list JSON array: Some(id) for a JSON object,
   * whose `value("id", "")` reads as id (the empty string when "id" is
   * absent); None for an element that is not a JSON object.
   */
  type CameraEntry = Option<string>

  /** The parsed body of the camera-list reply. */
  datatype CameraList = NotAnArray | CameraArray(entries: seq<CameraEntry>)

  /** How a program ends: EXIT_SUCCESS, EXIT_FAILURE, or by an uncaught exception or undefined behaviour. */
  datatype ExitStatus = ExitSuccess | ExitFailure | AbnormalTermination

  /** The camera-list checks both programs make before choosing a camera. */
  predicate ReplyOk(reply: Option<HttpResponse>) {
    reply.Some? && reply.value.statusCode == 200
  }

  predicate HasCameras(list: CameraList) {
    list.CameraArray? && list.entries != []
  }

  /** The substring both programs look for in a camera id. */
  const PreferredMaker: string := "QHY"

  /** `pattern` occurs in `s` starting at index i. */
  ghost predicate OccursAt(s: string, pattern: string, i: int) {
    0 <= i && i + |pattern| <= |s| && s[i..i + |pattern|] == pattern
  }

  /** std::string::find(pattern) != npos. */
  function Contains(s: string, pattern: string): (r: bool)
    ensures r <==> exists i :: OccursAt(s, pattern, i)
    decreases |s|
  {
    if |pattern| <= |s| && s[..|pattern|] == pattern then
      assert OccursAt(s, pattern, 0);
      true
    else if |s| <= |pattern| then
      false
    else
      var r := Contains(s[1..], pattern);
      forall i | OccursAt(s, pattern, i) ensures OccursAt(s[1..], pattern, i - 1) {
        assert i != 0 by { assert s[..|pattern|] == s[0..|pattern|]; }
        OccursInTail(s, pattern, i - 1);
      }
      forall i | OccursAt(s[1..], pattern, i) ensures OccursAt(s, pattern, i + 1) {
        OccursInTail(s, pattern, i);
      }
      r
  }

  /** Dropping the first character shifts every occurrence one place to the left. */
  lemma OccursInTail(s: string, pattern: string, i: int)
    requires s != [] && 0 <= i
    ensures OccursAt(s[1..], pattern, i) <==> OccursAt(s, pattern, i + 1)
  {
    if 0 <= i && i + |pattern| <= |s| - 1 {
      assert s[1..][i..i + |pattern|] == s[i + 1..i + 1 + |pattern|];
    }
  }

  /** An entry the selection loop takes: a JSON object whose id contains "QHY". */
  predicate IsPreferred(entry: CameraEntry) {
    entry.Some? && Contains(entry.value, PreferredMaker)
  }

  /** Index k holds the first preferred entry. */
  ghost predicate FirstPreferredAt(entries: seq<CameraEntry>, k: int) {
    0 <= k < |entries| && IsPreferred(entries[k]) &&
    forall j :: 0 <= j < k ==> !IsPreferred(entries[j])
  }

  /** The id of the first preferred entry, or `fallback` when there is none. */
  function PreferredOr(entries: seq<CameraEntry>, fallback: string): string {
    if entries == [] then fallback
    else if IsPreferred(entries[0]) then entries[0].value
    else PreferredOr(entries[1..], fallback)
  }

  /** PreferredOr picks the first preferred entry, and the fallback only when no entry is preferred. */
  lemma {:induction false} PreferredOrIsFirstPreferred(entries: seq<CameraEntry>, fallback: string)
    ensures (exists k :: FirstPreferredAt(entries, k) && PreferredOr(entries, fallback) == entries[k].value) ||
            ((forall k :: 0 <= k < |entries| ==> !IsPreferred(entries[k])) && PreferredOr(entries, fallback) == fallback)
  {
    if entries == [] {
    } else if IsPreferred(entries[0]) {
      assert FirstPreferredAt(entries, 0);
    } else {
      PreferredOrIsFirstPreferred(entries[1..], fallback);
      if k :| FirstPreferredAt(entries[1..], k) && PreferredOr(entries[1..], fallback) == entries[1..][k].value {
        assert FirstPreferredAt(entries, k + 1);
      } else {
        assert forall k :: 0 <= k < |entries| ==> !IsPreferred(entries[k]) by {
          forall k | 0 < k < |entries| ensures !IsPreferred(entries[k]) { assert entries[k] == entries[1..][k - 1]; }
        }
      }
    }
  }

  /** The outcome of choosing a camera. */
  datatype CameraChoice = Chosen(id: string) | FrontNotAnObject

  /**
   * The camera-selection loop: start from the first entry's id, then take the
   * first object entry whose id contains "QHY". `front().value(...)` throws
   * when the first element is not an object, before the loop runs.
   */
  method ChooseCamera(entries: seq<CameraEntry>) returns (choice: CameraChoice)
    requires entries != []
    ensures choice.FrontNotAnObject? <==> entries[0].None?
    ensures choice.Chosen? ==> choice.id == PreferredOr(entries, entries[0].value)
  {
    if entries[0].None? {
      return FrontNotAnObject;
    }
    var chosen := entries[0].value;
    var i := 0;
    while i < |entries|
      invariant 0 <= i <= |entries|
      invariant PreferredOr(entries[i..], entries[0].value) == PreferredOr(entries, entries[0].value)
    {
      var entry := entries[i];
      if entry.Some? {
        if Contains(entry.value, PreferredMaker) {
          chosen := entry.value;
          break;
        }
      }
      assert entries[i..][1..] == entries[i + 1..];
      i := i + 1;
    }
    return Chosen(chosen);
  }
}
