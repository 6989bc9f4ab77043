/** Protocol sniffing: the shrinking candidate list, and the loop that feeds it from the cached reader. */
module Sniffing {
  import opened Panel
  import opened CachedReaders

  datatype Network = TCP | UDP | Other

  datatype SniffResult = SniffResult(protocol: string, domain: string)

  /** What a protocol sniffer says of the bytes seen so far. */
  datatype Verdict = Hit(result: SniffResult) | NoClue | NeedMoreData | Rejects

  datatype Candidate = Candidate(sniff: seq<byte> -> Verdict, metadataSniffer: bool, network: Network)

  datatype SniffError = ErrNoClue | ErrNeedMoreData | ErrUnknownContent

  datatype Answer = Found(result: SniffResult) | Failed(error: SniffError)

  predicate Relevant(c: Candidate, network: Network) {
    !c.metadataSniffer && c.network == network
  }

  function FirstHit(cs: seq<Candidate>, payload: seq<byte>, network: Network): Option<SniffResult> {
    if cs == [] then None
    else if Relevant(cs[0], network) && cs[0].sniff(payload).Hit? then Some(cs[0].sniff(payload).result)
    else FirstHit(cs[1..], payload, network)
  }

  /** The candidates that may still match. */
  function Pending(cs: seq<Candidate>, payload: seq<byte>, network: Network): seq<Candidate> {
    if cs == [] then []
    else
      (if Relevant(cs[0], network) && cs[0].sniff(payload).NoClue? then [cs[0]] else []) +
      Pending(cs[1..], payload, network)
  }

  /** Running every candidate of the list on the payload. */
  function AnswerOf(cs: seq<Candidate>, payload: seq<byte>, network: Network): Answer {
    var hit := FirstHit(cs, payload, network);
    if hit.Some? then Found(hit.value)
    else if Pending(cs, payload, network) != [] then Failed(ErrNoClue)
    else Failed(ErrUnknownContent)
  }

  /** The list is replaced only by a round without a clue. */
  function ListAfter(cs: seq<Candidate>, payload: seq<byte>, network: Network): seq<Candidate> {
    if AnswerOf(cs, payload, network) == Failed(ErrNoClue) then Pending(cs, payload, network) else cs
  }

  function MetadataHit(cs: seq<Candidate>): Option<SniffResult> {
    if cs == [] then None
    else if cs[0].metadataSniffer && cs[0].sniff([]).Hit? then Some(cs[0].sniff([]).result)
    else MetadataHit(cs[1..])
  }

  /** Content candidates, and metadata candidates without a clue. */
  function MetadataPending(cs: seq<Candidate>): seq<Candidate> {
    if cs == [] then []
    else (if !cs[0].metadataSniffer || cs[0].sniff([]).NoClue? then [cs[0]] else []) + MetadataPending(cs[1..])
  }

  class Sniffer {
    var sniffers: seq<Candidate>

    constructor (sniffers: seq<Candidate>)
      ensures this.sniffers == sniffers
    {
      this.sniffers := sniffers;
    }

    method Sniff(payload: seq<byte>, network: Network) returns (answer: Answer)
      modifies this
      ensures answer == AnswerOf(old(sniffers), payload, network)
      ensures sniffers == ListAfter(old(sniffers), payload, network)
      ensures answer != Failed(ErrNeedMoreData)
    {
      var hit, pending := Scan(sniffers, payload, network);
      if hit.Some? {
        return Found(hit.value);
      }
      if |pending| > 0 {
        sniffers := pending;
        return Failed(ErrNoClue);
      }
      return Failed(ErrUnknownContent);
    }

    /** Runs the candidates in order, up to the first hit, and collects those without a clue. */
    static method Scan(cs: seq<Candidate>, payload: seq<byte>, network: Network)
      returns (hit: Option<SniffResult>, pending: seq<Candidate>)
      ensures hit == FirstHit(cs, payload, network)
      ensures hit == None ==> pending == Pending(cs, payload, network)
    {
      pending := [];
      for i := 0 to |cs|
        invariant FirstHit(cs, payload, network) == FirstHit(cs[i..], payload, network)
        invariant Pending(cs, payload, network) == pending + Pending(cs[i..], payload, network)
      {
        ScanStep(cs, i, payload, network, pending);
        if cs[i].metadataSniffer || cs[i].network != network {
          continue;
        }
        match cs[i].sniff(payload) {
          case NoClue => pending := pending + [cs[i]];
          case Hit(result) => return Some(result), pending;
          case _ =>
        }
      }
      hit := None;
    }

    method SniffMetadata() returns (answer: Answer)
      modifies this
      ensures answer == if MetadataHit(old(sniffers)).Some? then Found(MetadataHit(old(sniffers)).value)
                        else if MetadataPending(old(sniffers)) != [] then Failed(ErrNoClue)
                        else Failed(ErrUnknownContent)
      ensures sniffers == if answer == Failed(ErrNoClue) then MetadataPending(old(sniffers)) else old(sniffers)
    {
      var hit, pending := ScanMetadata(sniffers);
      if hit.Some? {
        return Found(hit.value);
      }
      if |pending| > 0 {
        sniffers := pending;
        return Failed(ErrNoClue);
      }
      return Failed(ErrUnknownContent);
    }

    static method ScanMetadata(cs: seq<Candidate>) returns (hit: Option<SniffResult>, pending: seq<Candidate>)
      ensures hit == MetadataHit(cs)
      ensures hit == None ==> pending == MetadataPending(cs)
    {
      pending := [];
      for i := 0 to |cs|
        invariant MetadataHit(cs) == MetadataHit(cs[i..])
        invariant MetadataPending(cs) == pending + MetadataPending(cs[i..])
      {
        MetadataStep(cs, i, pending);
        if !cs[i].metadataSniffer {
          pending := pending + [cs[i]];
          continue;
        }
        match cs[i].sniff([]) {
          case NoClue => pending := pending + [cs[i]];
          case Hit(result) => return Some(result), pending;
          case _ =>
        }
      }
      hit := None;
    }
  }

  /** What one candidate adds to those found pending before it. */
  lemma ScanStep(cs: seq<Candidate>, i: nat, payload: seq<byte>, network: Network, before: seq<Candidate>)
    requires i < |cs|
    ensures FirstHit(cs[i..], payload, network) ==
            if Relevant(cs[i], network) && cs[i].sniff(payload).Hit? then Some(cs[i].sniff(payload).result)
            else FirstHit(cs[i + 1..], payload, network)
    ensures before + Pending(cs[i..], payload, network) ==
            (if Relevant(cs[i], network) && cs[i].sniff(payload).NoClue? then before + [cs[i]] else before) +
            Pending(cs[i + 1..], payload, network)
  {
    assert cs[i..][1..] == cs[i + 1..];
  }

  lemma MetadataStep(cs: seq<Candidate>, i: nat, before: seq<Candidate>)
    requires i < |cs|
    ensures MetadataHit(cs[i..]) ==
            if cs[i].metadataSniffer && cs[i].sniff([]).Hit? then Some(cs[i].sniff([]).result)
            else MetadataHit(cs[i + 1..])
    ensures before + MetadataPending(cs[i..]) ==
            (if !cs[i].metadataSniffer || cs[i].sniff([]).NoClue? then before + [cs[i]] else before) +
            MetadataPending(cs[i + 1..])
  {
    assert cs[i..][1..] == cs[i + 1..];
  }

  // ---- candidate elimination ----

  /** Dropped from the list; a sniffer that asks for more data is dropped as well. */
  predicate DropsOut(v: Verdict) {
    v.Rejects? || v.NeedMoreData?
  }

  /** What is dropped for some bytes stays dropped when more bytes follow. */
  ghost predicate Persistent(c: Candidate) {
    forall p: seq<byte>, q: seq<byte> :: p <= q && DropsOut(c.sniff(p)) ==> DropsOut(c.sniff(q))
  }

  ghost predicate AllPersistent(cs: seq<Candidate>, network: Network) {
    forall i :: 0 <= i < |cs| && Relevant(cs[i], network) ==> Persistent(cs[i])
  }

  ghost predicate Growing(ps: seq<seq<byte>>) {
    forall i, j :: 0 <= i < j < |ps| ==> ps[i] <= ps[j]
  }

  function ListAfterAll(cs: seq<Candidate>, ps: seq<seq<byte>>, network: Network): seq<Candidate>
    decreases |ps|
  {
    if ps == [] then cs else ListAfterAll(ListAfter(cs, ps[0], network), ps[1..], network)
  }

  lemma {:induction false} PendingRunsLikeAll(cs: seq<Candidate>, p: seq<byte>, q: seq<byte>, network: Network)
    requires AllPersistent(cs, network) && p <= q && FirstHit(cs, p, network).None?
    ensures FirstHit(Pending(cs, p, network), q, network) == FirstHit(cs, q, network)
    ensures Pending(Pending(cs, p, network), q, network) == Pending(cs, q, network)
    ensures AllPersistent(Pending(cs, p, network), network)
  {
    if cs != [] {
      var c, rest := cs[0], cs[1..];
      assert forall i :: 0 <= i < |rest| ==> rest[i] == cs[i + 1];
      PendingRunsLikeAll(rest, p, q, network);
      var kept := Pending(rest, p, network);
      if Relevant(c, network) && c.sniff(p).NoClue? {
        assert Pending(cs, p, network) == [c] + kept;
        assert ([c] + kept)[1..] == kept;
      } else {
        assert Pending(cs, p, network) == [] + kept == kept;
        if Relevant(c, network) {
          assert Persistent(c) && DropsOut(c.sniff(p)) && DropsOut(c.sniff(q));
        }
        assert Pending(cs, q, network) == [] + Pending(rest, q, network);
      }
    }
  }

  lemma OneRoundSound(cs: seq<Candidate>, p: seq<byte>, q: seq<byte>, network: Network)
    requires AllPersistent(cs, network) && p <= q
    ensures AnswerOf(ListAfter(cs, p, network), q, network) == AnswerOf(cs, q, network)
    ensures AllPersistent(ListAfter(cs, p, network), network)
  {
    if AnswerOf(cs, p, network) == Failed(ErrNoClue) {
      PendingRunsLikeAll(cs, p, q, network);
    }
  }

  /** Over any number of rounds on growing payloads the shrinking list answers as all the original candidates would. */
  lemma {:induction false} EliminationSound(cs: seq<Candidate>, ps: seq<seq<byte>>, q: seq<byte>, network: Network)
    requires AllPersistent(cs, network) && Growing(ps + [q])
    ensures AnswerOf(ListAfterAll(cs, ps, network), q, network) == AnswerOf(cs, q, network)
    decreases |ps|
  {
    if ps != [] {
      assert (ps + [q])[0] == ps[0] && (ps + [q])[|ps|] == q;
      OneRoundSound(cs, ps[0], q, network);
      assert forall i :: 0 <= i < |ps[1..] + [q]| ==> (ps[1..] + [q])[i] == (ps + [q])[i + 1];
      EliminationSound(ListAfter(cs, ps[0], network), ps[1..], q, network);
    }
  }

  /** A candidate that comes back after being dropped makes some list give a wrong answer in the second round. */
  lemma EliminationNeedsPersistence(c: Candidate, p: seq<byte>, q: seq<byte>)
    requires !c.metadataSniffer && p <= q && DropsOut(c.sniff(p)) && !DropsOut(c.sniff(q))
    ensures exists d :: Relevant(d, c.network) &&
                        AnswerOf(ListAfterAll([c, d], [p], c.network), q, c.network) != AnswerOf([c, d], q, c.network)
  {
    var d := Candidate(x => if x == p then NoClue else Rejects, false, c.network);
    var n := c.network;
    OfOne(d, p, n);
    OfOne(d, q, n);
    OfTwo(c, d, p, n);
    OfTwo(c, d, q, n);
    assert d.sniff(p) == NoClue && Relevant(d, n);
    assert [] + [d] == [d] && [p][1..] == [];
    assert ListAfterAll([c, d], [p], n) == [d];
    assert AnswerOf([d], q, n) == Failed(ErrUnknownContent) != AnswerOf([c, d], q, n);
  }

  lemma OfOne(c: Candidate, p: seq<byte>, network: Network)
    requires Relevant(c, network)
    ensures FirstHit([c], p, network) == if c.sniff(p).Hit? then Some(c.sniff(p).result) else None
    ensures Pending([c], p, network) == if c.sniff(p).NoClue? then [c] else []
  {
    assert [c][1..] == [] && [c] + [] == [c];
  }

  lemma OfTwo(c: Candidate, d: Candidate, p: seq<byte>, network: Network)
    requires Relevant(c, network)
    ensures FirstHit([c, d], p, network) ==
            if c.sniff(p).Hit? then Some(c.sniff(p).result) else FirstHit([d], p, network)
    ensures Pending([c, d], p, network) == (if c.sniff(p).NoClue? then [c] else []) + Pending([d], p, network)
  {
    assert [c, d][1..] == [d];
  }

  /** Removing metadata candidates beforehand never changes what content sniffing answers. */
  lemma {:induction false} MetadataRoundIsHarmless(cs: seq<Candidate>, payload: seq<byte>, network: Network)
    ensures FirstHit(MetadataPending(cs), payload, network) == FirstHit(cs, payload, network)
    ensures Pending(MetadataPending(cs), payload, network) == Pending(cs, payload, network)
  {
    if cs != [] {
      MetadataRoundIsHarmless(cs[1..], payload, network);
      var kept := MetadataPending(cs[1..]);
      assert ([cs[0]] + kept)[1..] == kept && [] + kept == kept;
    }
  }

  // ---- the content loop ----

  datatype ContentResult =
    | Sniffed(result: SniffResult)
    | NotKnown
    | SniffingTimeout
    | Canceled
    | ReadFailed(error: ReadError)

  /** When the context is done and how long each cache call takes, in milliseconds. */
  datatype Clock = Clock(canceled: nat -> bool, elapsed: nat -> int)

  const DEADLINE := 200

  /** The loop's answer over at most two rounds, on the list each round leaves or on all candidates every time. */
  function SniffStream(cs: seq<Candidate>, shrink: bool, s: ReaderState, cap: nat, network: Network, clock: Clock,
                       round: nat, deadline: int): ContentResult
    requires round < 2
    decreases 2 - round
  {
    if clock.canceled(round) then Canceled
    else
      var (s1, error) := AfterCache(s);
      if error.Some? then ReadFailed(error.value)
      else
        var payload, left := Payload(s1.cache, cap), deadline - clock.elapsed(round);
        match RoundAnswer(cs, payload, network)
        case Found(result) => Sniffed(result)
        case Failed(ErrUnknownContent) => NotKnown
        case Failed(_) =>
          if round == 1 || left <= 0 then SniffingTimeout
          else SniffStream(if shrink then RoundList(cs, payload, network) else cs, shrink,
                           s1, cap, network, clock, round + 1, left)
  }

  // ---- the answer by cases ----

  /** The candidate is for content on this network and, if some bytes were sniffed before, had no clue of them. */
  predicate Eligible(c: Candidate, network: Network, earlier: seq<byte>) {
    !c.metadataSniffer && c.network == network && (earlier == [] || c.sniff(earlier) == NoClue)
  }

  /** The first eligible candidate to match the bytes gives this result. */
  ghost predicate HitsAt(cs: seq<Candidate>, network: Network, earlier: seq<byte>, payload: seq<byte>, i: nat,
                         result: SniffResult) {
    && i < |cs| && Eligible(cs[i], network, earlier) && cs[i].sniff(payload) == Hit(result)
    && forall j :: 0 <= j < i && Eligible(cs[j], network, earlier) ==> !cs[j].sniff(payload).Hit?
  }

  ghost predicate Hits(cs: seq<Candidate>, network: Network, earlier: seq<byte>, payload: seq<byte>,
                       result: SniffResult) {
    exists i :: HitsAt(cs, network, earlier, payload, i, result)
  }

  ghost predicate Misses(cs: seq<Candidate>, network: Network, earlier: seq<byte>, payload: seq<byte>) {
    forall i :: 0 <= i < |cs| && Eligible(cs[i], network, earlier) ==> !cs[i].sniff(payload).Hit?
  }

  ghost predicate LeavesOpen(cs: seq<Candidate>, network: Network, earlier: seq<byte>, payload: seq<byte>) {
    exists i :: 0 <= i < |cs| && Eligible(cs[i], network, earlier) && cs[i].sniff(payload) == NoClue
  }

  /** The candidates a round runs, given the bytes of the round before. */
  function StillIn(cs: seq<Candidate>, earlier: seq<byte>, network: Network): seq<Candidate> {
    if earlier == [] then cs else Pending(cs, earlier, network)
  }

  lemma StillInStep(cs: seq<Candidate>, earlier: seq<byte>, payload: seq<byte>, network: Network)
    requires cs != []
    ensures var c, rest := cs[0], StillIn(cs[1..], earlier, network);
            && FirstHit(StillIn(cs, earlier, network), payload, network) ==
               (if Eligible(c, network, earlier) && c.sniff(payload).Hit? then Some(c.sniff(payload).result)
                else FirstHit(rest, payload, network))
            && Pending(StillIn(cs, earlier, network), payload, network) ==
               (if Eligible(c, network, earlier) && c.sniff(payload) == NoClue then [c] else []) +
               Pending(rest, payload, network)
  {
    var c, rest := cs[0], StillIn(cs[1..], earlier, network);
    assert ([c] + rest)[1..] == rest && [] + rest == rest;
    assert [] + Pending(rest, payload, network) == Pending(rest, payload, network);
  }

  lemma HitsStep(cs: seq<Candidate>, network: Network, earlier: seq<byte>, payload: seq<byte>, result: SniffResult)
    requires cs != []
    ensures Hits(cs, network, earlier, payload, result) <==>
            if Eligible(cs[0], network, earlier) && cs[0].sniff(payload).Hit? then cs[0].sniff(payload).result == result
            else Hits(cs[1..], network, earlier, payload, result)
  {
    var rest := cs[1..];
    assert forall i :: 0 <= i < |rest| ==> rest[i] == cs[i + 1];
    if i: nat :| HitsAt(cs, network, earlier, payload, i, result) {
      if i > 0 {
        assert Eligible(cs[0], network, earlier) ==> !cs[0].sniff(payload).Hit?;
        assert HitsAt(rest, network, earlier, payload, i - 1, result);
      }
    }
    if Eligible(cs[0], network, earlier) && cs[0].sniff(payload).Hit? {
      assert HitsAt(cs, network, earlier, payload, 0, cs[0].sniff(payload).result);
    } else if i: nat :| HitsAt(rest, network, earlier, payload, i, result) {
      assert HitsAt(cs, network, earlier, payload, i + 1, result);
    }
  }

  lemma OpenStep(cs: seq<Candidate>, network: Network, earlier: seq<byte>, payload: seq<byte>)
    requires cs != []
    ensures LeavesOpen(cs, network, earlier, payload) <==>
            (Eligible(cs[0], network, earlier) && cs[0].sniff(payload) == NoClue) ||
            LeavesOpen(cs[1..], network, earlier, payload)
    ensures Misses(cs, network, earlier, payload) <==>
            !(Eligible(cs[0], network, earlier) && cs[0].sniff(payload).Hit?) &&
            Misses(cs[1..], network, earlier, payload)
  {
    var rest := cs[1..];
    assert forall i :: 0 <= i < |rest| ==> rest[i] == cs[i + 1];
    if i :| 0 <= i < |cs| && Eligible(cs[i], network, earlier) && cs[i].sniff(payload) == NoClue {
      assert i > 0 ==> Eligible(rest[i - 1], network, earlier) && rest[i - 1].sniff(payload) == NoClue;
    }
    if Misses(rest, network, earlier, payload) {
      forall i | 1 <= i < |cs| && Eligible(cs[i], network, earlier) ensures !cs[i].sniff(payload).Hit? {
        assert cs[i] == rest[i - 1];
      }
    }
  }

  lemma {:induction false} ListDecides(cs: seq<Candidate>, network: Network, earlier: seq<byte>, payload: seq<byte>)
    ensures var list := StillIn(cs, earlier, network);
            && (forall result :: FirstHit(list, payload, network) == Some(result) <==>
                                 Hits(cs, network, earlier, payload, result))
            && (FirstHit(list, payload, network) == None <==> Misses(cs, network, earlier, payload))
            && (Pending(list, payload, network) != [] <==> LeavesOpen(cs, network, earlier, payload))
  {
    if cs != [] {
      ListDecides(cs[1..], network, earlier, payload);
      StillInStep(cs, earlier, payload, network);
      OpenStep(cs, network, earlier, payload);
      forall result { HitsStep(cs, network, earlier, payload, result); }
    }
  }

  /** A round has nothing to say: there are no bytes, or no match but a candidate without a clue. */
  ghost predicate Clueless(cs: seq<Candidate>, network: Network, earlier: seq<byte>, payload: seq<byte>) {
    payload == [] || (Misses(cs, network, earlier, payload) && LeavesOpen(cs, network, earlier, payload))
  }

  ghost predicate Hopeless(cs: seq<Candidate>, network: Network, earlier: seq<byte>, payload: seq<byte>) {
    payload != [] && Misses(cs, network, earlier, payload) && !LeavesOpen(cs, network, earlier, payload)
  }

  /** What a round answers: the first match, no clue, or that nothing can match any more. */
  lemma RoundDecides(cs: seq<Candidate>, network: Network, earlier: seq<byte>, payload: seq<byte>)
    ensures var answer := RoundAnswer(StillIn(cs, earlier, network), payload, network);
            && (forall result :: answer == Found(result) <==>
                                 payload != [] && Hits(cs, network, earlier, payload, result))
            && (answer == Failed(ErrNoClue) <==> Clueless(cs, network, earlier, payload))
            && (answer == Failed(ErrUnknownContent) <==> Hopeless(cs, network, earlier, payload))
            && answer != Failed(ErrNeedMoreData)
            && (answer == Failed(ErrNoClue) && earlier == [] ==>
                  RoundList(cs, payload, network) == StillIn(cs, payload, network))
  {
    ListDecides(cs, network, earlier, payload);
  }

  /** The bytes a round gets to see: the front of all bytes kept up to its own read. */
  function SeenAfter(s: ReaderState, n: nat, cap: nat): seq<byte>
    requires n <= |s.script|
  {
    var kept := s.cache + Stream(s.script[..n]);
    kept[..if |kept| <= cap then |kept| else cap]
  }

  /** The first reads of the connection bring no error. */
  predicate ReadsWell(s: ReaderState, n: nat) {
    n <= |s.script| && forall i :: 0 <= i < n ==> s.script[i].error == None
  }

  /** The n-th read of the connection fails with this error; reading past the end says that it is closed. */
  predicate ReadFails(s: ReaderState, n: nat, error: ReadError) {
    if n < |s.script| then s.script[n].error == Some(error) else error == Closed
  }

  lemma FirstReads(s: ReaderState, cap: nat)
    ensures var (s1, error) := AfterCache(s);
            && (error == None <==> ReadsWell(s, 1))
            && (forall e :: error == Some(e) <==> ReadFails(s, 0, e))
            && (error == None ==>
                  && Payload(s1.cache, cap) == SeenAfter(s, 1, cap) && s1.script == s.script[1..]
                  && s1.cache == s.cache + s.script[0].data)
  {
    if s.script != [] {
      assert s.script[..1] == [s.script[0]] && [s.script[0]][1..] == [];
      assert Stream(s.script[..1]) == s.script[0].data + [];
      assert s.script[0].data + [] == s.script[0].data;
    }
  }

  lemma SecondReads(s: ReaderState, cap: nat)
    requires ReadsWell(s, 1)
    ensures var (s2, error) := AfterCache(AfterCache(s).0);
            && (error == None <==> ReadsWell(s, 2))
            && (forall e :: error == Some(e) <==> ReadFails(s, 1, e))
            && (error == None ==> Payload(s2.cache, cap) == SeenAfter(s, 2, cap))
  {
    var s1 := AfterCache(s).0;
    FirstReads(s, cap);
    FirstReads(s1, cap);
    if |s.script| > 1 {
      var a, b := s.script[0], s.script[1];
      assert s.script[..2] == [a, b] && [a, b][1..] == [b] && [b][1..] == [];
      assert Stream([b]) == b.data + [] && Stream([a, b]) == a.data + Stream([b]);
      assert s1.cache + b.data == s.cache + (a.data + (b.data + []));
    }
  }

  /** The first round is reached, and finds nothing out while time is left. */
  ghost predicate GoesOn(cs: seq<Candidate>, s: ReaderState, cap: nat, network: Network, clock: Clock) {
    && !clock.canceled(0) && ReadsWell(s, 1) && Clueless(cs, network, [], SeenAfter(s, 1, cap))
    && clock.elapsed(0) < 200
  }

  /** The answer of the second round. */
  lemma SecondRound(cs: seq<Candidate>, s: ReaderState, cap: nat, network: Network, clock: Clock)
    requires GoesOn(cs, s, cap, network, clock)
    ensures var answer := SniffStream(cs, true, s, cap, network, clock, 0, DEADLINE);
            var p := SeenAfter(s, 1, cap);
            && (answer == Canceled <==> clock.canceled(1))
            && (forall e :: answer == ReadFailed(e) <==> !clock.canceled(1) && ReadFails(s, 1, e))
            && (!clock.canceled(1) && ReadsWell(s, 2) ==>
                  var q := SeenAfter(s, 2, cap);
                  && (forall result :: answer == Sniffed(result) <==> q != [] && Hits(cs, network, p, q, result))
                  && (answer == NotKnown <==> Hopeless(cs, network, p, q))
                  && (answer == SniffingTimeout <==> Clueless(cs, network, p, q)))
  {
    var p, s1 := SeenAfter(s, 1, cap), AfterCache(s).0;
    FirstReads(s, cap);
    SecondReads(s, cap);
    RoundDecides(cs, network, [], p);
    var left := DEADLINE - clock.elapsed(0);
    assert SniffStream(cs, true, s, cap, network, clock, 0, DEADLINE) ==
           SniffStream(StillIn(cs, p, network), true, s1, cap, network, clock, 1, left);
    if ReadsWell(s, 2) {
      RoundDecides(cs, network, p, SeenAfter(s, 2, cap));
    }
  }

  /** The answer when the first round is the last. */
  lemma FirstRound(cs: seq<Candidate>, s: ReaderState, cap: nat, network: Network, clock: Clock)
    requires !GoesOn(cs, s, cap, network, clock)
    ensures var answer := SniffStream(cs, true, s, cap, network, clock, 0, DEADLINE);
            && (answer == Canceled <==> clock.canceled(0))
            && (forall e :: answer == ReadFailed(e) <==> !clock.canceled(0) && ReadFails(s, 0, e))
            && (!clock.canceled(0) && ReadsWell(s, 1) ==>
                  var p := SeenAfter(s, 1, cap);
                  && (forall result :: answer == Sniffed(result) <==> p != [] && Hits(cs, network, [], p, result))
                  && (answer == NotKnown <==> Hopeless(cs, network, [], p))
                  && (answer == SniffingTimeout <==> Clueless(cs, network, [], p)))
  {
    FirstReads(s, cap);
    if ReadsWell(s, 1) {
      RoundDecides(cs, network, [], SeenAfter(s, 1, cap));
    }
  }

  lemma PayloadGrows(cache: seq<byte>, more: seq<byte>, cap: nat)
    ensures Payload(cache, cap) <= Payload(cache + more, cap)
  {}

  /** With persistent candidates the shrinking list makes no difference to any stream under any clock. */
  lemma ShrinkingMatchesAll(cs: seq<Candidate>, s: ReaderState, cap: nat, network: Network, clock: Clock)
    requires AllPersistent(cs, network)
    ensures SniffStream(cs, true, s, cap, network, clock, 0, DEADLINE) ==
            SniffStream(cs, false, s, cap, network, clock, 0, DEADLINE)
  {
    var s1 := AfterCache(s).0;
    var s2 := AfterCache(s1).0;
    var p, q := Payload(s1.cache, cap), Payload(s2.cache, cap);
    PayloadGrows(s1.cache, AfterPull(s1).1.data, cap);
    assert AfterCache(s1).1.None? ==> p <= q;
    if p <= q {
      OneRoundSound(cs, p, q, network);
    }
  }

  /** The answer of one round, given the bytes kept so far. */
  function RoundAnswer(cs: seq<Candidate>, payload: seq<byte>, network: Network): Answer {
    if payload == [] then Failed(ErrNoClue) else AnswerOf(cs, payload, network)
  }

  function RoundList(cs: seq<Candidate>, payload: seq<byte>, network: Network): seq<Candidate> {
    if payload == [] then cs else ListAfter(cs, payload, network)
  }

  /** One round of the loop: an empty payload is not sniffed at all. */
  method SniffRound(sniffer: Sniffer, payload: seq<byte>, network: Network) returns (answer: Answer)
    modifies sniffer
    ensures answer == RoundAnswer(old(sniffer.sniffers), payload, network) && answer != Failed(ErrNeedMoreData)
    ensures sniffer.sniffers == RoundList(old(sniffer.sniffers), payload, network)
  {
    if payload == [] {
      return Failed(ErrNoClue);
    }
    answer := sniffer.Sniff(payload, network);
  }

  /** At most two cache calls for every stream and clock: asking for more data is an answer that never comes. */
  method SniffContent(reader: CachedReader, sniffer: Sniffer, cap: nat, network: Network, clock: Clock)
    returns (result: ContentResult, calls: nat)
    requires reader.Valid()
    modifies reader.Parts(), sniffer
    ensures calls <= 2
    ensures result == SniffStream(old(sniffer.sniffers), true, old(reader.View()), cap, network, clock, 0, DEADLINE)
    ensures reader.View() == AfterCaches(old(reader.View()), calls)
  {
    ghost var cs, start := sniffer.sniffers, reader.View();
    var cacheDeadline := DEADLINE;
    var totalAttempt: nat := 0;
    calls := 0;
    while true
      invariant calls == totalAttempt <= 1 && reader.Valid()
      invariant reader.View() == AfterCaches(start, calls)
      invariant SniffStream(sniffer.sniffers, true, reader.View(), cap, network, clock, calls, cacheDeadline) ==
                SniffStream(cs, true, start, cap, network, clock, 0, DEADLINE)
      decreases 2 - totalAttempt
    {
      if clock.canceled(calls) {
        return Canceled, calls;
      }
      var payload, error := reader.Cache(cap);
      calls := calls + 1;
      if error.Some? {
        return ReadFailed(error.value), calls;
      }
      cacheDeadline := cacheDeadline - clock.elapsed(calls - 1);
      var answer := SniffRound(sniffer, payload, network);
      match answer {
        case Found(r) => return Sniffed(r), calls;
        case Failed(ErrUnknownContent) => return NotKnown, calls;
        case Failed(ErrNoClue) => totalAttempt := totalAttempt + 1;
        case Failed(ErrNeedMoreData) => assert false;
      }
      if totalAttempt >= 2 || cacheDeadline <= 0 {
        return SniffingTimeout, calls;
      }
    }
  }

  /** The reader after some cache calls and nothing else. */
  function AfterCaches(s: ReaderState, n: nat): ReaderState {
    if n == 0 then s else AfterCache(AfterCaches(s, n - 1)).0
  }

  // ---- the metadata round and the final answer ----

  /** The first metadata candidate to match without any bytes gives this result. */
  ghost predicate MetadataHitsAt(cs: seq<Candidate>, i: nat, result: SniffResult) {
    && i < |cs| && cs[i].metadataSniffer && cs[i].sniff([]) == Hit(result)
    && forall j :: 0 <= j < i && cs[j].metadataSniffer ==> !cs[j].sniff([]).Hit?
  }

  /** A metadata match is the first one in the list; the list left is every content candidate and every metadata
      candidate without a clue. */
  lemma {:induction false} MetadataDecides(cs: seq<Candidate>, i: nat, result: SniffResult)
    requires MetadataHitsAt(cs, i, result)
    ensures MetadataHit(cs) == Some(result)
  {
    if i > 0 {
      assert cs[0].metadataSniffer ==> !cs[0].sniff([]).Hit?;
      assert forall j :: 0 <= j < |cs[1..]| ==> cs[1..][j] == cs[j + 1];
      MetadataDecides(cs[1..], i - 1, result);
    }
  }

  lemma {:induction false} NoMetadataHit(cs: seq<Candidate>)
    ensures MetadataHit(cs) == None <==>
            forall i :: 0 <= i < |cs| && cs[i].metadataSniffer ==> !cs[i].sniff([]).Hit?
    ensures forall c :: c in MetadataPending(cs) <==> c in cs && (!c.metadataSniffer || c.sniff([]) == NoClue)
  {
    if cs != [] {
      NoMetadataHit(cs[1..]);
      assert cs == [cs[0]] + cs[1..];
      if MetadataHit(cs) == None {
        forall i | 0 <= i < |cs| && cs[i].metadataSniffer ensures !cs[i].sniff([]).Hit? {
          assert i > 0 ==> cs[i] == cs[1..][i - 1];
        }
      }
      if forall i :: 0 <= i < |cs| && cs[i].metadataSniffer ==> !cs[i].sniff([]).Hit? {
        assert forall i :: 0 <= i < |cs[1..]| ==> cs[1..][i] == cs[i + 1];
      }
    }
  }

  /** What sniffing a connection yields in the end; a composite has the domain of the metadata and the protocol of the
      content. */
  datatype FinalResult =
    | ByMetadata(metadata: SniffResult)
    | Composite(domainResult: SniffResult, protocolResult: SniffResult)
    | ByContent(content: SniffResult)
    | NoMetadata(error: SniffError)
    | NoContent(failure: ContentResult)

  /** Sniffs the metadata, and unless that is all that is wanted the content; metadata alone make up for content that
      cannot be sniffed. */
  method SniffConnection(reader: CachedReader, sniffer: Sniffer, metadataOnly: bool, cap: nat, network: Network,
                         clock: Clock) returns (result: FinalResult)
    requires reader.Valid()
    modifies reader.Parts(), sniffer
    ensures var cs, start := old(sniffer.sniffers), old(reader.View());
            var metadata, answer := MetadataHit(cs), SniffStream(MetadataLeaves(cs), true, start, cap, network, clock,
                                                                 0, DEADLINE);
            match (metadata, answer)
            case (Some(m), Sniffed(c)) => result == if metadataOnly then ByMetadata(m) else Composite(m, c)
            case (Some(m), _) => result == ByMetadata(m)
            case (None, Sniffed(c)) => metadataOnly || result == ByContent(c)
            case (None, failure) => metadataOnly || result == NoContent(failure)
    ensures metadataOnly ==> reader.View() == old(reader.View())
    ensures metadataOnly && MetadataHit(old(sniffer.sniffers)) == None ==> result.NoMetadata?
  {
    var metadata := sniffer.SniffMetadata();
    if metadataOnly {
      result := match metadata case Found(m) => ByMetadata(m) case Failed(error) => NoMetadata(error);
      return;
    }
    var content, calls := SniffContent(reader, sniffer, cap, network, clock);
    match content {
      case Sniffed(c) => result := if metadata.Found? then Composite(metadata.result, c) else ByContent(c);
      case _ => result := if metadata.Found? then ByMetadata(metadata.result) else NoContent(content);
    }
  }

  /** The list the metadata round leaves: cut down only when it found nothing but somebody may still match. */
  function MetadataLeaves(cs: seq<Candidate>): seq<Candidate> {
    if MetadataHit(cs).None? && MetadataPending(cs) != [] then MetadataPending(cs) else cs
  }
}
