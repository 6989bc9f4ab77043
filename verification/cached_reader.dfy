/** The reader that lets the first bytes of a connection be looked at and then replays them. */
module CachedReaders {
  import opened Panel

  newtype byte = x: int | 0 <= x < 256

  datatype ReadError = TimedOut | Closed

  /** What one read of the connection yields; a reader may hand over bytes together with an error. */
  datatype Outcome = Outcome(data: seq<byte>, error: Option<ReadError>)

  /** `script` is what the connection will still yield, `counted` tells whether a counting reader stands in between,
      and `delivered` is everything handed to the caller so far. */
  datatype ReaderState = ReaderState(script: seq<Outcome>, counted: bool, counter: int,
                                       cache: seq<byte>, delivered: seq<byte>)

  function Stream(script: seq<Outcome>): seq<byte> {
    if script == [] then [] else script[0].data + Stream(script[1..])
  }

  /** One read below the cache; the counting reader keeps no bytes that come with an error. */
  function AfterPull(s: ReaderState): (ReaderState, Outcome) {
    if s.script == [] then (s, Outcome([], Some(Closed)))
    else
      var o, s1 := s.script[0], s.(script := s.script[1..]);
      if !s.counted then (s1, o)
      else if o.error.Some? then (s1, Outcome([], o.error))
      else (s1.(counter := s.counter + |o.data|), o)
  }

  function Payload(cache: seq<byte>, cap: nat): seq<byte> {
    if |cache| <= cap then cache else cache[..cap]
  }

  function AfterCache(s: ReaderState): (ReaderState, Option<ReadError>) {
    var (s1, o) := AfterPull(s);
    if o.error.Some? then (s1, o.error) else (s1.(cache := s.cache + o.data), None)
  }

  function AfterRead(s: ReaderState): (ReaderState, Outcome) {
    if s.cache != [] then (s.(cache := [], delivered := s.delivered + s.cache), Outcome(s.cache, None))
    else
      var (s1, o) := AfterPull(s);
      (s1.(delivered := s.delivered + o.data), o)
  }

  /** Throws the cache away and, unless a counting reader hides the pipe, what the pipe still holds. */
  function AfterInterrupt(s: ReaderState): ReaderState {
    s.(cache := [], script := if s.counted then s.script else [])
  }

  // ---- the readers ----

  class PipeReader {
    var script: seq<Outcome>

    method Read() returns (data: seq<byte>, error: Option<ReadError>)
      modifies this
      ensures var (s1, o) := AfterPull(ReaderState(old(script), false, 0, [], []));
              script == s1.script && Outcome(data, error) == o
    {
      if script == [] {
        return [], Some(Closed);
      }
      data, error := script[0].data, script[0].error;
      script := script[1..];
    }

    method Interrupt()
      modifies this
      ensures script == []
    {
      script := [];
    }
  }

  class CounterReader {
    const reader: PipeReader
    var counter: int

    constructor (reader: PipeReader)
      ensures this.reader == reader && counter == 0
    {
      this.reader, counter := reader, 0;
    }

    method Read() returns (data: seq<byte>, error: Option<ReadError>)
      modifies this, reader
      ensures var (s1, o) := AfterPull(ReaderState(old(reader.script), true, old(counter), [], []));
              reader.script == s1.script && counter == s1.counter && Outcome(data, error) == o
    {
      data, error := reader.Read();
      if error.Some? {
        return [], error;
      }
      if |data| > 0 {
        counter := counter + |data|;
      }
    }
  }

  class CachedReader {
    const pipe: PipeReader
    const counting: CounterReader?
    var cache: seq<byte>
    ghost var delivered: seq<byte>

    ghost predicate Valid() {
      counting != null ==> counting.reader == pipe
    }

    ghost function Parts(): set<object> {
      {this, pipe} + (if counting == null then {} else {counting})
    }

    ghost function View(): ReaderState
      reads Parts()
    {
      ReaderState(pipe.script, counting != null, if counting == null then 0 else counting.counter, cache, delivered)
    }

    constructor (pipe: PipeReader, counting: CounterReader?)
      requires counting != null ==> counting.reader == pipe
      ensures Valid() && this.pipe == pipe && this.counting == counting && cache == [] && delivered == []
    {
      this.pipe, this.counting, cache, delivered := pipe, counting, [], [];
    }

    method Pull() returns (data: seq<byte>, error: Option<ReadError>)
      requires Valid()
      modifies Parts() - {this}
      ensures (View(), Outcome(data, error)) == AfterPull(old(View()))
    {
      if counting == null {
        data, error := pipe.Read();
      } else {
        data, error := counting.Read();
      }
    }

    /** Reads once, keeps the bytes, and copies the front of everything kept into the payload buffer. */
    method Cache(cap: nat) returns (payload: seq<byte>, error: Option<ReadError>)
      requires Valid()
      modifies Parts()
      ensures (View(), error) == AfterCache(old(View()))
      ensures error.None? ==> payload == Payload(cache, cap)
      ensures delivered == old(delivered) && old(cache) <= cache
    {
      var data: seq<byte>;
      data, error := Pull();
      if error.Some? {
        return [], error;
      }
      cache := cache + data;
      payload := if |cache| <= cap then cache else cache[..cap];
    }

    method Read() returns (data: seq<byte>, error: Option<ReadError>)
      requires Valid()
      modifies Parts()
      ensures (View(), Outcome(data, error)) == AfterRead(old(View()))
      ensures delivered == old(delivered) + data
      ensures old(cache) != [] ==> data == old(cache) && error == None && cache == [] && pipe.script == old(pipe.script)
    {
      if cache != [] {
        data, error := cache, None;
        cache := [];
      } else {
        data, error := Pull();
      }
      delivered := delivered + data;
    }

    method Interrupt()
      requires Valid()
      modifies Parts()
      ensures View() == AfterInterrupt(old(View()))
    {
      cache := [];
      if counting == null {
        pipe.Interrupt();
      }
    }
  }

  // ---- any sequence of calls ----

  datatype Op = DoCache | DoRead | DoInterrupt

  function Step(s: ReaderState, op: Op): ReaderState {
    match op
    case DoCache => AfterCache(s).0
    case DoRead => AfterRead(s).0
    case DoInterrupt => AfterInterrupt(s)
  }

  function RunOps(s: ReaderState, ops: seq<Op>): ReaderState
    decreases |ops|
  {
    if ops == [] then s else RunOps(Step(s, ops[0]), ops[1..])
  }

  /** The original stream as it can still be seen: delivered, kept, and not yet read. */
  function Whole(s: ReaderState): seq<byte> {
    s.delivered + s.cache + Stream(s.script)
  }

  /** Whether the call is one of those that drop bytes: a cache call or a counted read that meets an error with bytes,
      or an interrupt while anything is left. */
  predicate Drops(s: ReaderState, op: Op) {
    match op
    case DoCache => s.script != [] && s.script[0].error.Some? && s.script[0].data != []
    case DoRead => s.cache == [] && s.counted && s.script != [] && s.script[0].error.Some? && s.script[0].data != []
    case DoInterrupt => s.cache != [] || (!s.counted && Stream(s.script) != [])
  }

  predicate RunDrops(s: ReaderState, ops: seq<Op>)
    decreases |ops|
  {
    ops != [] && (Drops(s, ops[0]) || RunDrops(Step(s, ops[0]), ops[1..]))
  }

  lemma StepKeepsWhole(s: ReaderState, op: Op)
    ensures |Whole(Step(s, op))| <= |Whole(s)|
    ensures !Drops(s, op) ==> Whole(Step(s, op)) == Whole(s)
    ensures Drops(s, op) ==> |Whole(Step(s, op))| < |Whole(s)|
  {
    match op
    case DoCache => MoveBytes(s.delivered, s.cache, s.script);
    case DoRead =>
      assert s.delivered + s.cache + [] == s.delivered + s.cache;
      MoveBytes(s.delivered, [], s.script);
    case DoInterrupt =>
  }

  /** The next bytes of the connection may as well be kept or delivered. */
  lemma MoveBytes(delivered: seq<byte>, cache: seq<byte>, script: seq<Outcome>)
    ensures script != [] ==>
              var d, rest := script[0].data, Stream(script[1..]);
              && delivered + cache + Stream(script) == delivered + (cache + d) + rest
              && delivered + cache + Stream(script) == (delivered + cache + d) + rest
              && |Stream(script)| == |d| + |rest|
  {}

  /** Every sequence of calls replays the stream byte for byte and in order exactly when no call of it drops bytes. */
  lemma {:induction false} TransparentIff(s: ReaderState, ops: seq<Op>)
    ensures Whole(RunOps(s, ops)) == Whole(s) <==> !RunDrops(s, ops)
    ensures |Whole(RunOps(s, ops))| <= |Whole(s)|
    decreases |ops|
  {
    if ops != [] {
      StepKeepsWhole(s, ops[0]);
      TransparentIff(Step(s, ops[0]), ops[1..]);
    }
  }

  /** Errors come without bytes, as they do from pipes. */
  predicate CleanErrors(script: seq<Outcome>) {
    forall i :: 0 <= i < |script| && script[i].error.Some? ==> script[i].data == []
  }

  lemma {:induction false} CleanErrorsAreTransparent(s: ReaderState, ops: seq<Op>)
    requires CleanErrors(s.script) && forall i :: 0 <= i < |ops| ==> !ops[i].DoInterrupt?
    ensures Whole(RunOps(s, ops)) == Whole(s)
    decreases |ops|
  {
    if ops != [] {
      StepKeepsWhole(s, ops[0]);
      CleanErrorsAreTransparent(Step(s, ops[0]), ops[1..]);
    }
  }

  /** The counting reader has counted exactly what was delivered or is kept. */
  lemma {:induction false} CounterIsExact(s: ReaderState, ops: seq<Op>)
    requires s.counted && forall i :: 0 <= i < |ops| ==> !ops[i].DoInterrupt?
    ensures RunOps(s, ops).counter - |RunOps(s, ops).delivered| - |RunOps(s, ops).cache| ==
            s.counter - |s.delivered| - |s.cache|
    ensures RunOps(s, ops).counted
    decreases |ops|
  {
    if ops != [] {
      CounterIsExact(Step(s, ops[0]), ops[1..]);
    }
  }

  // ---- what the caller gets ----

  /** The bytes the read calls of a run return, one after the other. */
  function Answers(s: ReaderState, ops: seq<Op>): seq<byte>
    decreases |ops|
  {
    if ops == [] then []
    else (if ops[0].DoRead? then AfterRead(s).1.data else []) + Answers(Step(s, ops[0]), ops[1..])
  }

  lemma {:induction false} AnswersAreDelivered(s: ReaderState, ops: seq<Op>)
    ensures RunOps(s, ops).delivered == s.delivered + Answers(s, ops)
    decreases |ops|
  {
    if ops != [] {
      AnswersAreDelivered(Step(s, ops[0]), ops[1..]);
    }
  }

  lemma TailEqual(front: seq<byte>, a: seq<byte>, b: seq<byte>)
    ensures front + a == front + b <==> a == b
  {
    if front + a == front + b {
      assert a == (front + a)[|front|..] && b == (front + b)[|front|..];
    }
  }

  /** What the read calls return, then what is kept, then what is unread, is the stream as it was, exactly when no call
      drops bytes. */
  lemma AnswersReplayIff(s: ReaderState, ops: seq<Op>)
    ensures var t := RunOps(s, ops);
            Answers(s, ops) + t.cache + Stream(t.script) == s.cache + Stream(s.script) <==> !RunDrops(s, ops)
  {
    var t := RunOps(s, ops);
    TransparentIff(s, ops);
    AnswersAreDelivered(s, ops);
    assert Whole(t) == s.delivered + (Answers(s, ops) + t.cache + Stream(t.script));
    assert Whole(s) == s.delivered + (s.cache + Stream(s.script));
    TailEqual(s.delivered, Answers(s, ops) + t.cache + Stream(t.script), s.cache + Stream(s.script));
  }

  /** With a counting reader the counter rises by the bytes the read calls return and those newly kept. */
  lemma CounterCountsAnswers(s: ReaderState, ops: seq<Op>)
    requires s.counted && forall i :: 0 <= i < |ops| ==> !ops[i].DoInterrupt?
    ensures var t := RunOps(s, ops); t.counter - s.counter == |Answers(s, ops)| + |t.cache| - |s.cache|
  {
    CounterIsExact(s, ops);
    AnswersAreDelivered(s, ops);
  }

  /** A read call returns what is kept if anything is, without touching the connection; otherwise what the connection
      yields next, with its error, of which a counting reader hides the bytes. */
  lemma ReadsAnswer(s: ReaderState)
    ensures var (t, o) := AfterRead(s);
            && t.cache == []
            && (s.cache != [] ==> o == Outcome(s.cache, None) && t.script == s.script && t.counter == s.counter)
            && (s.cache == [] && s.script == [] ==> o == Outcome([], Some(Closed)))
            && (s.cache == [] && s.script != [] ==>
                  && t.script == s.script[1..] && o.error == s.script[0].error
                  && o.data == if s.counted && s.script[0].error != None then [] else s.script[0].data)
  {}

  /** The payload is the front of everything kept, as much of it as the buffer holds. */
  lemma PayloadIsFront(cache: seq<byte>, cap: nat)
    ensures Payload(cache, cap) <= cache && |Payload(cache, cap)| == if |cache| < cap then |cache| else cap
  {}
}
