/** Marks as positions in the buffer, and how reporting whole slices agrees with reporting bytes. */
module Slices {
  import opened Bytes
  import opened Trace
  import opened ParserState
  import opened Transitions
  import opened ByteMachine
  import opened Invariants

  /** The live mark of a call, if any: `kind##_mark` is `data + start`. */
  datatype Live = NoSlice | From(kind: DataKind, start: nat)

  /** The callbacks made so far and the live mark. */
  datatype Tape = Tape(events: seq<Event>, live: Live)

  function KindOf(live: Live): Pending {
    match live
    case NoSlice => NoMark
    case From(k, _) => Marked(k)
  }

  /** The source has a mark for each kind of data; here one stands for all, as none is set beside another. */
  predicate Alone(mark: Pending, e: Effect) { e.Mark? ==> mark == NoMark || mark == Marked(e.kind) }

  predicate AllAlone(mark: Pending, effects: seq<Effect>)
    decreases |effects|
  {
    effects == [] || (Alone(mark, effects[0]) && AllAlone(MarkAfter(mark, effects[0]), effects[1..]))
  }

  function MarkAfter(mark: Pending, e: Effect): Pending {
    match e
    case Mark(k) => Marked(k)
    case Notify(_) => mark
    case Flush(k) => if mark == Marked(k) then NoMark else mark
    case FlushThrough(k) => if mark == Marked(k) then NoMark else mark
  }

  /** The macros MARK and CALLBACK_* with `p` in the buffer `data`. */
  function Perform(t: Tape, e: Effect, data: seq<byte>, p: nat): Tape
    requires p < |data| && (t.live.From? ==> t.live.start <= p) && Alone(KindOf(t.live), e)
  {
    match e
    case Mark(k) => if t.live == NoSlice then t.(live := From(k, p)) else t
    case Flush(k) => Cut(t, k, data, p)
    case FlushThrough(k) => Cut(t, k, data, p + 1)
    case Notify(event) => t.(events := t.events + [event])
  }

  /** CALLBACK_DATA_: reports the slice up to `end` if the mark `k` is set, and clears it. */
  function Cut(t: Tape, k: DataKind, data: seq<byte>, end: nat): Tape
    requires end <= |data| && (t.live.From? ==> t.live.start <= end)
  {
    if t.live.From? && t.live.kind == k
    then Tape(t.events + [Data(k, data[t.live.start..end])], NoSlice)
    else t
  }

  function PerformAll(t: Tape, effects: seq<Effect>, data: seq<byte>, p: nat): Tape
    requires p < |data| && (t.live.From? ==> t.live.start <= p) && AllAlone(KindOf(t.live), effects)
    decreases |effects|
  {
    if effects == [] then t else PerformAll(Perform(t, effects[0], data, p), effects[1..], data, p)
  }

  /** The merged trace with the live slice reported up to `p`. */
  function View(t: Tape, data: seq<byte>, p: nat): seq<Event>
    requires p <= |data| && (t.live.From? ==> t.live.start <= p)
  {
    match t.live
    case NoSlice => Merge(t.events)
    case From(k, i) => Push(Merge(t.events), Data(k, data[i..p]))
  }

  /** The live mark is the one its state calls for, or a body slice that is not yet cut. */
  predicate LiveFits(s: State, live: Live, p: nat) {
    match ResumeMark(s)
    case Marked(k) => live.From? && live.kind == k && live.start <= p
    case NoMark => live == NoSlice || (live.kind == Body && live.start < p)
  }

  lemma ViewReports(t: Tape, data: seq<byte>, p: nat)
    requires p <= |data| && (t.live.From? ==> t.live.start <= p)
    ensures Reports(View(t, data, p), Merge(t.events))
  {
    hide Push, Merge;
    match t.live
    case NoSlice =>
    case From(k, i) => assert View(t, data, p) == Push(Merge(t.events), Data(k, data[i..p]));
  }

  lemma ViewGrows(t: Tape, data: seq<byte>, p: nat, q: nat)
    requires t.live.From? && t.live.start <= p <= q <= |data|
    ensures View(t, data, q) == Push(View(t, data, p), Data(t.live.kind, data[p..q]))
  {
    var i := t.live.start;
    assert data[i..p] + data[p..q] == data[i..q];
    PushTwice(Merge(t.events), t.live.kind, data[i..p], data[p..q]);
  }

  /** Cutting reports exactly what the view shows. */
  lemma CutView(t: Tape, k: DataKind, data: seq<byte>, p: nat)
    requires p <= |data| && (t.live.From? ==> t.live.start <= p)
    ensures View(Cut(t, k, data, p), data, p) == View(t, data, p)
  {
    if t.live.From? && t.live.kind == k {
      MergeSnoc(t.events, Data(k, data[t.live.start..p]));
    }
  }

  /** Setting a mark shows an empty slice. */
  lemma MarkView(events: seq<Event>, k: DataKind, data: seq<byte>, p: nat)
    requires p <= |data|
    ensures View(Tape(events, From(k, p)), data, p) == Push(Merge(events), Data(k, []))
  {
    assert data[p..p] == [];
  }

  /** No state sets a mark beside another one. */
  lemma OrderlyAlone(s: State, live: Live, m: Move, p: nat)
    requires Orderly(s, m) && !m.control.Fail? && LiveFits(s, live, p)
    requires ResumeMark(s) == NoMark && live.From? ==> s == Chunk(ChunkDataAlmostDone)
    ensures AllAlone(KindOf(live), m.effects)
  {
    var mark := KindOf(live);
    if |m.effects| == 1 {
      assert m.effects[1..] == [];
      assert AllAlone(MarkAfter(mark, m.effects[0]), m.effects[1..]);
    } else if |m.effects| == 2 {
      assert m.effects[1..][1..] == [];
      assert AllAlone(MarkAfter(MarkAfter(mark, m.effects[0]), m.effects[1..][0]), m.effects[1..][1..]);
      assert AllAlone(MarkAfter(mark, m.effects[0]), m.effects[1..]);
    }
  }

  lemma PerformNone(t: Tape, effects: seq<Effect>, data: seq<byte>, p: nat)
    requires p < |data| && (t.live.From? ==> t.live.start <= p) && |effects| == 0
    ensures AllAlone(KindOf(t.live), effects) && PerformAll(t, effects, data, p) == t
    ensures effects == []
  {}

  lemma PerformOne(t: Tape, effects: seq<Effect>, data: seq<byte>, p: nat)
    requires p < |data| && (t.live.From? ==> t.live.start <= p) && AllAlone(KindOf(t.live), effects) && |effects| == 1
    ensures PerformAll(t, effects, data, p) == Perform(t, effects[0], data, p)
  {
    assert effects[1..] == [];
  }

  lemma PerformTwo(t: Tape, effects: seq<Effect>, data: seq<byte>, p: nat)
    requires p < |data| && (t.live.From? ==> t.live.start <= p) && AllAlone(KindOf(t.live), effects) && |effects| == 2
    ensures Alone(KindOf(Perform(t, effects[0], data, p).live), effects[1])
    ensures Perform(t, effects[0], data, p).live.From? ==> Perform(t, effects[0], data, p).live.start <= p
    ensures PerformAll(t, effects, data, p) == Perform(Perform(t, effects[0], data, p), effects[1], data, p)
  {
    PerformOne(Perform(t, effects[0], data, p), effects[1..], data, p);
  }

  /** The tape `u` after a pass shows what the bytes show. */
  predicate Matches(s: State, u: Tape, m: Move, slot: Slot, data: seq<byte>, p: nat)
    requires p < |data|
  {
    && (m.control == Advance ==>
          LiveFits(m.f.state, u.live, p + 1) && View(u, data, p + 1) == EndOfBuffer(slot, data[p]))
    && (m.control != Advance ==>
          LiveFits(m.f.state, u.live, p) && View(u, data, p) == slot.log && slot.mark == ResumeMark(m.f.state))
    && (u.live.From? && u.live.kind == Body ==> TakesBody(s))
    && (m.control == Exit ==> u.live == NoSlice)
  }

  lemma OneOrderly(s: State, t: Tape, m: Move, data: seq<byte>, p: nat)
    requires p < |data| && Orderly(s, m) && !m.control.Fail?
    requires LiveFits(s, t.live, p)
    requires ResumeMark(s) == NoMark && t.live.From? ==> s == Chunk(ChunkDataAlmostDone)
    requires Resumable(View(t, data, p), ResumeMark(s))
    requires |m.effects| == 1 && Alone(KindOf(t.live), m.effects[0])
    ensures Matches(s, Perform(t, m.effects[0], data, p), m,
                    Apply(Slot(View(t, data, p), ResumeMark(s)), m.effects[0], data[p]), data, p)
  {
    hide Merge, Push;
    var t1 := Perform(t, m.effects[0], data, p);
    match m.effects[0] {
      case Mark(k) => MarkView(t.events, k, data, p);
      case Flush(k) => CutView(t, k, data, p);
      case Notify(event) => MergeSnoc(t.events, event);
      case FlushThrough(_) =>
    }
    if t1.live.From? { ViewStep(t1, data, p); }
  }

  lemma TwoOrderly(s: State, t: Tape, m: Move, data: seq<byte>, p: nat)
    requires p < |data| && Orderly(s, m) && !m.control.Fail?
    requires LiveFits(s, t.live, p)
    requires ResumeMark(s) == NoMark && t.live.From? ==> s == Chunk(ChunkDataAlmostDone)
    requires Resumable(View(t, data, p), ResumeMark(s))
    requires |m.effects| == 2 && t.live == NoSlice
    ensures var t1 := Perform(t, m.effects[0], data, p);
            var slot1 := Apply(Slot(View(t, data, p), ResumeMark(s)), m.effects[0], data[p]);
            Alone(KindOf(t1.live), m.effects[1]) && (t1.live.From? ==> t1.live.start <= p) &&
            Matches(s, Perform(t1, m.effects[1], data, p), m, Apply(slot1, m.effects[1], data[p]), data, p)
  {
    hide Merge, Push;
    var k, ch := m.effects[0].kind, data[p];
    var t1 := Perform(t, m.effects[0], data, p);
    MarkView(t.events, k, data, p);
    if m.effects[1] == Flush(k) {
      CutView(t1, k, data, p);
    } else {
      assert data[p..p + 1] == [ch];
      MergeSnoc(t1.events, Data(k, data[p..p + 1]));
      PushTwice(Merge(t1.events), k, [], [ch]);
      assert [] + [ch] == [ch];
    }
  }

  /** One pass of the switch, on slices and on bytes. */
  lemma PerformOrderly(s: State, t: Tape, m: Move, data: seq<byte>, p: nat)
    requires p < |data| && Orderly(s, m) && !m.control.Fail?
    requires LiveFits(s, t.live, p)
    requires ResumeMark(s) == NoMark && t.live.From? ==> s == Chunk(ChunkDataAlmostDone)
    requires Resumable(View(t, data, p), ResumeMark(s))
    ensures AllAlone(KindOf(t.live), m.effects)
    ensures Matches(s, PerformAll(t, m.effects, data, p), m,
                    ApplyAll(Slot(View(t, data, p), ResumeMark(s)), m.effects, data[p]), data, p)
  {
    hide Merge, Push, View, Matches, ResumeMark, AllAlone, PerformAll;
    OrderlyAlone(s, t.live, m, p);
    var ch, slot := data[p], Slot(View(t, data, p), ResumeMark(s));
    if |m.effects| == 0 {
      PerformNone(t, m.effects, data, p);
      NoneOrderly(s, t, m, data, p);
    } else if |m.effects| == 1 {
      PerformOne(t, m.effects, data, p);
      assert m.effects[1..] == [];
      assert ApplyAll(slot, m.effects, ch) == Apply(slot, m.effects[0], ch);
      OneOrderly(s, t, m, data, p);
    } else {
      PerformTwo(t, m.effects, data, p);
      var slot1 := Apply(slot, m.effects[0], ch);
      assert m.effects[1..] == [m.effects[1]] && m.effects[1..][1..] == [];
      assert ApplyAll(slot1, m.effects[1..], ch) == Apply(slot1, m.effects[1], ch);
      TwoOrderly(s, t, m, data, p);
    }
  }

  lemma NoneOrderly(s: State, t: Tape, m: Move, data: seq<byte>, p: nat)
    requires p < |data| && Orderly(s, m) && !m.control.Fail?
    requires LiveFits(s, t.live, p)
    requires ResumeMark(s) == NoMark && t.live.From? ==> s == Chunk(ChunkDataAlmostDone)
    requires Resumable(View(t, data, p), ResumeMark(s))
    requires |m.effects| == 0
    ensures Matches(s, t, m, Slot(View(t, data, p), ResumeMark(s)), data, p)
  {
    hide Merge, Push;
    if t.live.From? { ViewStep(t, data, p); }
  }

  lemma ViewStep(t: Tape, data: seq<byte>, p: nat)
    requires t.live.From? && t.live.start <= p < |data|
    ensures View(t, data, p + 1) == Push(View(t, data, p), Data(t.live.kind, [data[p]]))
  {
    assert data[p..p + 1] == [data[p]];
    ViewGrows(t, data, p, p + 1);
  }
}
