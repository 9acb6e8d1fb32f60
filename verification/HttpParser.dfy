/** `struct http_parser` as an object: its fields, updated in place by `Execute`. */
module HttpParsers {
  import opened Bytes
  import opened Trace
  import opened ParserState
  import opened ByteMachine
  import opened Invariants
  import opened Execute
  import opened Upgrades

  /** What calls on a parser without error leave, given the byte machine's run over `len` bytes. */
  ghost predicate Agrees(target: RunResult, len: nat, m: Machine, errno: Errno, n: nat) {
    n <= len &&
    match target
    case Ran(end) => errno == OK && n == len && end == m
    case Stopped(end, left) => errno == OK && n + left == len && end == m
    case Failed(_, _, _) => FailsAs(target, errno, len - n, m.log)
  }

  /** A parser at rest between messages, or reading a body that only the end of the stream ends. */
  predicate MayEnd(s: State) { s.Between? || s == Payload(BodyIdentityEof) }

  class HttpParser {
    const cfg: Config

    var kind: Kind
    var flags: set<Flag>
    var state: State
    var headerState: HeaderState
    var index: nat
    var nread: nat
    var contentLength: nat
    var major: nat
    var minor: nat
    var status: nat
    var verb: Method
    var upgrade: bool
    var errno: Errno

    var answered: nat       // calls of on_headers_complete so far
    var events: seq<Event>  // callbacks so far

    function Snapshot(): Fields
      reads this
    {
      Fields(kind, flags, state, headerState, index, nread, contentLength, major, minor, status, verb,
             upgrade, answered)
    }

    /** The parser as the byte machine sees it. */
    function Abstract(): Machine
      reads this
    {
      Machine(Snapshot(), Merge(events))
    }

    /** What `upgrade` and the callbacks tell after a call, given what they told before it: whether the parser has
        left for another protocol. */
    predicate HasLeft(switched: bool, completed: nat)
      reads this
    {
      Switched(Snapshot()) && (!switched || Completed(events) > completed)
    }

    ghost predicate Valid()
      reads this
    {
      errno == OK ==> Inv(cfg, Abstract())
    }

    /** `sn_http_parser_init` */
    constructor (kind: Kind, cfg: Config)
      ensures Valid() && this.cfg == cfg && errno == OK && Abstract() == Machine(Initial(kind), [])
    {
      this.cfg := cfg;
      var f := Initial(kind);
      this.kind, flags, state, headerState, index := kind, {}, f.state, General, 0;
      nread, contentLength, major, minor, status, verb := 0, 0, 0, 0, 0, DELETE;
      upgrade, errno, answered, events := false, OK, 0, [];
    }

    method Store(f: Fields)
      modifies this
      ensures Snapshot() == f && events == old(events) && errno == old(errno)
    {
      kind, flags, state, headerState, index := f.kind, f.flags, f.state, f.headerState, f.index;
      nread, contentLength, major, minor := f.nread, f.contentLength, f.major, f.minor;
      status, verb, upgrade, answered := f.status, f.verb, f.upgrade, f.answered;
    }

    /** `sn_http_parser_execute`: an error sticks, an empty buffer is the end of the stream, and on any
        other buffer the call does what the byte machine does. */
    method Execute(data: seq<byte>) returns (n: nat)
      requires Valid() && |data| < SIZE_LIMIT && cfg.maxHeader < SIZE_LIMIT
      modifies this
      ensures Valid()
      ensures old(errno) != OK ==> n == 0 && errno == old(errno) && Abstract() == old(Abstract())
      ensures old(errno) == OK && data == [] ==>
                Snapshot() == old(Snapshot()) &&
                if !MayEnd(state) then n == 1 && errno == InvalidEofState && events == old(events)
                else n == 0 && errno == OK &&
                     events == old(events) + if state.Between? then [] else [MessageComplete]
      ensures old(errno) == OK && data != [] ==>
                Agrees(Run(cfg, old(Abstract()), data), |data|, Abstract(), errno, n)
    {
      hide Run, Inv, Merge;
      if errno != OK { return 0; }
      if data == [] {
        if state == Payload(BodyIdentityEof) {
          EndKeeps(cfg, Snapshot(), events);
          events := events + [MessageComplete];
          return 0;
        }
        if state.Between? { return 0; }
        errno := InvalidEofState;
        return 1;
      }
      var f, after, e;
      f, after, n, e := ExecuteBuffer(cfg, Snapshot(), events, data);
      Store(f);
      events, errno := after, e;
    }
  }

  /** The callback at the end of the stream leaves the invariant alone. */
  lemma EndKeeps(cfg: Config, f: Fields, events: seq<Event>)
    requires Inv(cfg, Machine(f, Merge(events))) && f.state == Payload(BodyIdentityEof)
    ensures Inv(cfg, Machine(f, Merge(events + [MessageComplete])))
  {}

  /** Two parsers in the same state, `whole` fed `a + b` and `parts` fed `a` and then `b`, unless it has left
      for another protocol by then: fields, merged callbacks, error and count are the same. Only an oversized
      header may show as different errors in different places, and with more or less of its value reported. */
  method ExecuteSplit(whole: HttpParser, parts: HttpParser, a: seq<byte>, b: seq<byte>)
    returns (n: nat, n1: nat, n2: nat)
    requires whole != parts && whole.cfg == parts.cfg && whole.Valid() && parts.Valid()
    requires whole.errno == OK && parts.errno == OK && whole.Abstract() == parts.Abstract()
    requires a != [] && b != [] && |a + b| < SIZE_LIMIT && whole.cfg.maxHeader < SIZE_LIMIT
    modifies whole, parts
    ensures whole.errno == OK ==> n == n1 + n2 && parts.errno == OK && whole.Abstract() == parts.Abstract()
    ensures whole.errno != OK ==>
              var target := Run(whole.cfg, old(whole.Abstract()), a + b);
              && n <= |a + b| && n1 + n2 <= |a + b|
              && FailsAs(target, whole.errno, |a + b| - n, Merge(whole.events))
              && FailsAs(target, parts.errno, |a + b| - n1 - n2, Merge(parts.events))
              && (target.errno != HeaderOverflow ==> parts.errno == whole.errno && n == n1 + n2)
  {
    hide Run, Inv, Merge, Reports, Overreports, Switched, Completed;
    ghost var m := whole.Abstract();
    var switched, completed := Switched(parts.Snapshot()), Completed(parts.events);
    RunAppend(whole.cfg, m, a, b);
    RunLeft(whole.cfg, m, a);
    UpgradeShows(whole.cfg, m, a);
    CompletedMerge(parts.events);
    n := whole.Execute(a + b);
    n1 := parts.Execute(a);
    n2 := 0;
    CompletedMerge(parts.events);
    if !parts.HasLeft(switched, completed) { n2 := parts.Execute(b); }
  }

  function Flatten(slices: seq<seq<byte>>): seq<byte> {
    if slices == [] then [] else Flatten(slices[..|slices| - 1]) + slices[|slices| - 1]
  }

  /** A stream cut into any buffers that are not empty, fed until the parser leaves for another protocol: fields,
      merged callbacks, error and count are those of the byte machine on the whole stream, and `left` tells whether
      it has left. Only an oversized header may show as another error, later, and with more of its value reported. */
  method ExecuteSlices(parser: HttpParser, slices: seq<seq<byte>>) returns (n: nat, left: bool)
    requires parser.Valid() && parser.errno == OK && parser.cfg.maxHeader < SIZE_LIMIT
    requires forall i :: 0 <= i < |slices| ==> 0 < |slices[i]| < SIZE_LIMIT
    modifies parser
    ensures parser.Valid()
    ensures var target := Run(parser.cfg, old(parser.Abstract()), Flatten(slices));
            Agrees(target, |Flatten(slices)|, parser.Abstract(), parser.errno, n) && left == target.Stopped?
  {
    hide Run, Inv, Merge, Reports, Overreports, Switched, Completed;
    ghost var m := parser.Abstract();
    var i := 0;
    n, left := 0, false;
    RunNothing(parser.cfg, m);
    while i < |slices|
      invariant i <= |slices| && parser.Valid()
      invariant var target := Run(parser.cfg, m, Flatten(slices[..i]));
                Agrees(target, |Flatten(slices[..i])|, parser.Abstract(), parser.errno, n) && left == target.Stopped?
    {
      assert slices[..i + 1][..i] == slices[..i];
      RunAppend(parser.cfg, m, Flatten(slices[..i]), slices[i]);
      if !left {
        var switched, completed := Switched(parser.Snapshot()), Completed(parser.events);
        RunLeft(parser.cfg, parser.Abstract(), slices[i]);
        UpgradeShows(parser.cfg, parser.Abstract(), slices[i]);
        CompletedMerge(parser.events);
        var k := parser.Execute(slices[i]);
        n := n + k;
        CompletedMerge(parser.events);
        left := parser.errno == OK && parser.HasLeft(switched, completed);
      }
      i := i + 1;
    }
    assert slices[..i] == slices;
  }
}
