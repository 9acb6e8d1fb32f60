/** Callbacks seen by the application, and the normal form in which neighbouring data callbacks
    of one kind are merged. */
module Trace {
  import opened Bytes

  datatype DataKind = Url | Status | Field | Value | Body

  /** What the application knows once it has answered on_headers_complete: `content_length`, F_CHUNKED, whether
      the method is CONNECT, whether it asked to skip the body, and `upgrade`. */
  datatype Head = Head(length: nat, chunked: bool, connect: bool, skip: bool, upgrade: bool)

  datatype Event =
    | MessageBegin
    | HeadersComplete(head: Head)
    | ChunkHeader(size: nat)                       // content_length as the callback sees it
    | ChunkComplete
    | MessageComplete
    | Data(kind: DataKind, bytes: seq<byte>)

  /** `log` ends in data of kind `k`. */
  predicate EndsIn(log: seq<Event>, k: DataKind) {
    log != [] && log[|log| - 1].Data? && log[|log| - 1].kind == k
  }

  /** Appends `e`, gluing data to data of the same kind. */
  function Push(log: seq<Event>, e: Event): (r: seq<Event>)
    ensures r != []
    ensures e.Data? ==> EndsIn(r, e.kind)
  {
    if e.Data? && EndsIn(log, e.kind) then
      log[..|log| - 1] + [Data(e.kind, log[|log| - 1].bytes + e.bytes)]
    else
      log + [e]
  }

  /** The normal form of a raw trace. */
  function Merge(events: seq<Event>): seq<Event> {
    if events == [] then [] else Push(Merge(events[..|events| - 1]), events[|events| - 1])
  }

  /** `told` is `log`, but perhaps for a last slice that is not reported yet. */
  ghost predicate Reports(log: seq<Event>, told: seq<Event>) {
    log == told || exists k: DataKind, bytes: seq<byte> :: log == Push(told, Data(k, bytes))
  }

  /** `told` has more of a header value than `log`. */
  ghost predicate Overreports(log: seq<Event>, told: seq<Event>) {
    EndsIn(log, Value) && exists more: seq<byte> :: told == Push(log, Data(Value, more))
  }

  lemma MergeSnoc(events: seq<Event>, e: Event)
    ensures Merge(events + [e]) == Push(Merge(events), e)
  {
    assert (events + [e])[..|events|] == events;
  }

  /** Two slices reported one after the other read like their concatenation. */
  lemma PushTwice(log: seq<Event>, k: DataKind, x: seq<byte>, y: seq<byte>)
    ensures Push(Push(log, Data(k, x)), Data(k, y)) == Push(log, Data(k, x + y))
  {
    if EndsIn(log, k) {
      assert log[|log| - 1].bytes + x + y == log[|log| - 1].bytes + (x + y);
    }
  }

  /** An empty slice disappears next to data of its own kind. */
  lemma PushNothing(log: seq<Event>, k: DataKind)
    requires EndsIn(log, k)
    ensures Push(log, Data(k, [])) == log
  {
    var last := log[|log| - 1];
    assert last.bytes + [] == last.bytes;
    assert log == log[..|log| - 1] + [last];
  }
}
