/** Validator samples under deterministic reorgs: a sample pins the block it was captured at, a reorg
    marks the pending samples of the blocks it replaces, and validation comes a few blocks later. */
module ValidatorSamples {
  import opened Wrappers

  // ---------------------------------------------------------------- candidate sets

  datatype Candidate = Candidate(id: string, owner: string, state: string, energy: int)

  /** Lexicographic order of ids. */
  predicate TextLe(a: string, b: string) {
    a == [] || (b != [] && (a[0] < b[0] || (a[0] == b[0] && TextLe(a[1..], b[1..]))))
  }

  /** One text is a beginning of the other, or smaller at the first place where they differ. */
  lemma {:induction false} TextLeIsLexicographic(a: string, b: string)
    ensures TextLe(a, b) <==> a <= b || exists k :: FirstDifference(a, b, k) && a[k] < b[k]
  {
    if a != [] && b != [] && a[0] == b[0] {
      var x, y := a[1..], b[1..];
      TextLeIsLexicographic(x, y);
      assert a == [a[0]] + x && b == [b[0]] + y;
      forall k | FirstDifference(x, y, k)
        ensures FirstDifference(a, b, k + 1) && a[k + 1] == x[k] && b[k + 1] == y[k]
      {
        assert a[..k + 1] == [a[0]] + x[..k] && b[..k + 1] == [b[0]] + y[..k];
      }
      forall k | FirstDifference(a, b, k)
        ensures k > 0 && FirstDifference(x, y, k - 1) && a[k] == x[k - 1] && b[k] == y[k - 1]
      {
        assert x[..k - 1] == a[..k][1..] && y[..k - 1] == b[..k][1..];
      }
    } else if a != [] && b != [] {
      assert FirstDifference(a, b, 0);
    }
  }

  predicate FirstDifference(a: string, b: string, k: int) {
    0 <= k < |a| && k < |b| && a[..k] == b[..k] && a[k] != b[k]
  }

  lemma {:induction false} TextLeTotal(a: string, b: string)
    ensures TextLe(a, b) || TextLe(b, a)
    ensures TextLe(a, b) && TextLe(b, a) ==> a == b
  {
    if a != [] && b != [] && a[0] == b[0] {
      TextLeTotal(a[1..], b[1..]);
      assert a == [a[0]] + a[1..] && b == [b[0]] + b[1..];
    }
  }

  lemma {:induction false} TextLeTransitive(a: string, b: string, c: string)
    requires TextLe(a, b) && TextLe(b, c)
    ensures TextLe(a, c)
  {
    if a != [] && a[0] == b[0] == c[0] {
      TextLeTransitive(a[1..], b[1..], c[1..]);
    }
  }

  /** More energy first, then the smaller id. */
  predicate Beats(a: Candidate, b: Candidate) {
    a.energy > b.energy || (a.energy == b.energy && TextLe(a.id, b.id))
  }

  function Winner(cs: seq<Candidate>): (w: Candidate)
    requires cs != []
    ensures w in cs
  {
    if |cs| == 1 then cs[0]
    else
      var w := Winner(cs[1..]);
      if Beats(cs[0], w) then cs[0] else w
  }

  lemma {:induction false} WinnerBeatsAll(cs: seq<Candidate>)
    requires cs != []
    ensures Winner(cs) in cs
    ensures var w := Winner(cs);
            forall c | c in cs :: c.energy < w.energy || (c.energy == w.energy && TextLe(w.id, c.id))
  {
    TextLeTotal(cs[0].id, cs[0].id);
    if |cs| > 1 {
      var w := Winner(cs[1..]);
      WinnerBeatsAll(cs[1..]);
      TextLeTotal(cs[0].id, w.id);
      forall c | c in cs
        ensures var w := Winner(cs); c.energy < w.energy || (c.energy == w.energy && TextLe(w.id, c.id))
      {
        if c != cs[0] {
          assert c in cs[1..];
          if Beats(cs[0], w) && cs[0].energy == w.energy == c.energy {
            TextLeTransitive(cs[0].id, w.id, c.id);
          }
        }
      }
    }
  }

  /** The winner does not depend on the order in which the candidates are listed. */
  lemma WinnerIgnoresOrder(xs: seq<Candidate>, ys: seq<Candidate>)
    requires xs != [] && ys != [] && forall c :: c in xs <==> c in ys
    ensures Winner(xs).id == Winner(ys).id && Winner(xs).energy == Winner(ys).energy
  {
    WinnerBeatsAll(xs);
    WinnerBeatsAll(ys);
    TextLeTotal(Winner(xs).id, Winner(ys).id);
  }

  /** `choose_candidate_set_winner`. */
  method ChooseWinner(cs: seq<Candidate>) returns (r: Result<Candidate, string>)
    ensures cs == [] <==> r.Failure?
    ensures r.Success? ==> r.value == Winner(cs) && r.value in cs && forall c | c in cs :: Beats(r.value, c)
  {
    if cs == [] {
      return Failure("candidate-set winner selection requires at least one candidate");
    }
    WinnerBeatsAll(cs);
    var k := |cs| - 1;
    var best := cs[k];
    while k > 0
      invariant 0 <= k < |cs| && best == Winner(cs[k..])
    {
      k := k - 1;
      assert cs[k..][1..] == cs[k + 1..];
      if Beats(cs[k], best) {
        best := cs[k];
      }
    }
    assert cs[0..] == cs;
    r := Success(best);
  }

  // ---------------------------------------------------------------- samples

  const MISMATCH := "SNAPSHOT_ID_MISMATCH"

  datatype Sample = Sample(
    tick: nat,
    height: nat,
    hash: nat,
    candidates: seq<Candidate>,
    winner: string,
    expectedError: Option<string>,
    invalidatedTick: Option<nat>,
    validated: bool,
    validatedTick: Option<nat>)

  /** What the indexer answers to a query pinned to a sample's block. */
  datatype Answer = Rejected(message: string) | Missing | Answered(candidates: seq<Candidate>)

  /** Report line of a successful validation. */
  datatype Report = Report(sample: nat, head: nat)

  datatype Book = Book(
    minAdvance: int,          // blocks asked for between capture and validation
    chain: seq<nat>,          // block hash at each height
    samples: seq<Sample>,
    ok: nat,
    failed: nat,
    reports: seq<Report>)

  predicate SameCandidates(xs: seq<Candidate>, ys: seq<Candidate>) {
    |xs| == |ys| && forall k | 0 <= k < |xs| ::
      xs[k].owner == ys[k].owner && xs[k].state == ys[k].state && xs[k].energy == ys[k].energy
  }

  function WithIds(actual: seq<Candidate>, expected: seq<Candidate>): (r: seq<Candidate>)
    requires |actual| == |expected|
    ensures |r| == |actual|
    ensures forall k | 0 <= k < |r| :: r[k] == actual[k].(id := expected[k].id)
  {
    seq(|actual|, k requires 0 <= k < |actual| => actual[k].(id := expected[k].id))
  }

  /** Whether an answer validates a sample; the actual candidates carry the ids they were asked for. */
  predicate Confirms(s: Sample, a: Answer) {
    match s.expectedError
    case Some(e) => a == Rejected(e)
    case None =>
      && a.Answered? && SameCandidates(s.candidates, a.candidates)
      && s.candidates != [] && Winner(WithIds(a.candidates, s.candidates)).id == s.winner
  }

  function Advance(minAdvance: int): nat {
    if minAdvance <= 1 then 1 else minAdvance
  }

  predicate Due(s: Sample, head: nat, minAdvance: int) {
    !s.validated && head >= s.height + Advance(minAdvance)
  }

  function ValidateOne(b: Book, i: nat, head: nat, tick: nat, a: Answer): Book
    requires i < |b.samples|
  {
    var s := b.samples[i];
    if !Due(s, head, b.minAdvance) then b
    else if Confirms(s, a) then
      b.(samples := b.samples[i := s.(validated := true, validatedTick := Some(tick))],
         ok := b.ok + 1, reports := b.reports + [Report(i, head)])
    else b.(failed := b.failed + 1)
  }

  function ValidateUpTo(b: Book, n: nat, head: nat, tick: nat, answers: nat -> Answer): (r: Book)
    requires n <= |b.samples|
    ensures |r.samples| == |b.samples| && r.chain == b.chain && r.minAdvance == b.minAdvance
  {
    if n == 0 then b
    else ValidateOne(ValidateUpTo(b, n - 1, head, tick, answers), n - 1, head, tick, answers(n - 1))
  }

  function Invalidate(s: Sample, lo: nat, hi: nat, tick: nat): Sample {
    if !s.validated && lo <= s.height <= hi then s.(expectedError := Some(MISMATCH), invalidatedTick := Some(tick)) else s
  }

  function InvalidateAll(samples: seq<Sample>, lo: nat, hi: nat, tick: nat): (r: seq<Sample>)
    ensures |r| == |samples| && forall k | 0 <= k < |r| :: r[k] == Invalidate(samples[k], lo, hi, tick)
  {
    seq(|samples|, k requires 0 <= k < |samples| => Invalidate(samples[k], lo, hi, tick))
  }

  function Head(b: Book): nat
    requires b.chain != []
  {
    |b.chain| - 1
  }

  /** `perform_reorg`: the last blocks are replaced by as many new ones. */
  function Reorg(b: Book, depth: nat, replacement: seq<nat>, tick: nat): Book
    requires 0 < depth < |b.chain| && |replacement| == depth
  {
    var start := Head(b) - depth + 1;
    b.(chain := b.chain[..start] + replacement,
       samples := InvalidateAll(b.samples, start, Head(b), tick))
  }

  function CaptureAt(b: Book, tick: nat, candidates: seq<Candidate>): Sample
    requires b.chain != [] && candidates != []
  {
    Sample(tick, Head(b), b.chain[Head(b)], candidates, Winner(candidates).id, None, None, false, None)
  }

  // ---------------------------------------------------------------- runs

  datatype Event =
    | Mine(hash: nat)
    | DoReorg(depth: nat, replacement: seq<nat>, tick: nat)
    | Capture(tick: nat, candidates: seq<Candidate>)
    | Validate(tick: nat, answers: nat -> Answer)

  function Step(b: Book, e: Event): Book
    requires b.chain != []
  {
    match e
    case Mine(h) => b.(chain := b.chain + [h])
    case DoReorg(depth, replacement, tick) =>
      if 0 < depth < |b.chain| && |replacement| == depth then Reorg(b, depth, replacement, tick) else b
    case Capture(tick, cs) => if cs == [] then b else b.(samples := b.samples + [CaptureAt(b, tick, cs)])
    case Validate(tick, answers) => ValidateUpTo(b, |b.samples|, Head(b), tick, answers)
  }

  function Hashes(e: Event): seq<nat> {
    match e
    case Mine(h) => [h]
    case DoReorg(_, replacement, _) => replacement
    case _ => []
  }

  /** New blocks have hashes never used before. */
  ghost predicate Fresh(e: Event, used: set<nat>) {
    && (forall h | h in Hashes(e) :: h !in used)
    && (forall i, j | 0 <= i < j < |Hashes(e)| :: Hashes(e)[i] != Hashes(e)[j])
  }

  ghost function UsedAfter(e: Event, used: set<nat>): set<nat> {
    used + (set h | h in Hashes(e))
  }

  function CountValidated(samples: seq<Sample>): nat {
    if samples == [] then 0 else CountValidated(samples[..|samples| - 1]) + (if samples[|samples| - 1].validated then 1 else 0)
  }

  ghost predicate ChainOk(chain: seq<nat>, used: set<nat>) {
    && chain != []
    && (forall k | 0 <= k < |chain| :: chain[k] in used)
    && (forall i, j | 0 <= i < j < |chain| :: chain[i] != chain[j])
  }

  /** A pending sample expects the mismatch error exactly when its block is no longer canonical. */
  ghost predicate SampleOk(chain: seq<nat>, used: set<nat>, s: Sample) {
    && s.height < |chain| && s.hash in used
    && s.candidates != [] && s.winner == Winner(s.candidates).id
    && (!s.validated ==> s.expectedError == if chain[s.height] == s.hash then None else Some(MISMATCH))
  }

  ghost predicate SamplesOk(chain: seq<nat>, used: set<nat>, samples: seq<Sample>) {
    forall i | 0 <= i < |samples| :: SampleOk(chain, used, samples[i])
  }

  /** Each validated sample was reported once, after the required head advance past its block, and counted. */
  ghost predicate ReportsOk(minAdvance: int, samples: seq<Sample>, reports: seq<Report>, ok: nat) {
    && ok == CountValidated(samples) == |reports|
    && (forall k | 0 <= k < |reports| ::
          && reports[k].sample < |samples| && samples[reports[k].sample].validated
          && reports[k].head >= samples[reports[k].sample].height + Advance(minAdvance))
    && (forall j, k | 0 <= j < k < |reports| :: reports[j].sample != reports[k].sample)
  }

  /** The invariant of a run. */
  ghost predicate Consistent(b: Book, used: set<nat>) {
    ChainOk(b.chain, used) && SamplesOk(b.chain, used, b.samples) && ReportsOk(b.minAdvance, b.samples, b.reports, b.ok)
  }

  lemma {:induction false} CountSet(samples: seq<Sample>, i: nat, s: Sample)
    requires i < |samples| && s.validated && !samples[i].validated
    ensures CountValidated(samples[i := s]) == CountValidated(samples) + 1
  {
    var n := |samples| - 1;
    if i == n {
      assert samples[i := s][..n] == samples[..n];
    } else {
      assert samples[i := s][..n] == samples[..n][i := s];
      CountSet(samples[..n], i, s);
    }
  }

  lemma {:induction false} CountSame(xs: seq<Sample>, ys: seq<Sample>)
    requires |xs| == |ys| && forall k | 0 <= k < |xs| :: xs[k].validated == ys[k].validated
    ensures CountValidated(xs) == CountValidated(ys)
  {
    if xs != [] {
      CountSame(xs[..|xs| - 1], ys[..|ys| - 1]);
    }
  }

  lemma ReportOneMore(minAdvance: int, samples: seq<Sample>, reports: seq<Report>, ok: nat, i: nat, s: Sample, head: nat)
    requires ReportsOk(minAdvance, samples, reports, ok) && i < |samples| && !samples[i].validated
    requires s.validated && s.height == samples[i].height && head >= s.height + Advance(minAdvance)
    ensures ReportsOk(minAdvance, samples[i := s], reports + [Report(i, head)], ok + 1)
  {
    CountSet(samples, i, s);
  }

  lemma ValidateOneKeeps(b: Book, used: set<nat>, i: nat, tick: nat, a: Answer)
    requires Consistent(b, used) && i < |b.samples|
    ensures Consistent(ValidateOne(b, i, Head(b), tick, a), used)
  {
    var s := b.samples[i];
    if Due(s, Head(b), b.minAdvance) && Confirms(s, a) {
      var done := s.(validated := true, validatedTick := Some(tick));
      ReportOneMore(b.minAdvance, b.samples, b.reports, b.ok, i, done, Head(b));
      assert SampleOk(b.chain, used, s);
      assert SamplesOk(b.chain, used, b.samples[i := done]);
    }
  }

  lemma ValidateKeeps(b: Book, used: set<nat>, n: nat, tick: nat, answers: nat -> Answer)
    requires Consistent(b, used) && n <= |b.samples|
    ensures Consistent(ValidateUpTo(b, n, Head(b), tick, answers), used)
  {
    var keeps := (r: Book) => Consistent(r, used) && r.chain == b.chain && r.minAdvance == b.minAdvance && |r.samples| == |b.samples|;
    forall r, i, a | keeps(r) && 0 <= i < |r.samples|
      ensures keeps(ValidateOne(r, i, Head(b), tick, a))
    {
      ValidateOneKeeps(r, used, i, tick, a);
    }
    EveryVisitKeeps(keeps, b, n, Head(b), tick, answers);
  }

  /** What visiting one sample keeps, visiting them in order keeps. */
  lemma {:induction false} EveryVisitKeeps(keeps: Book -> bool, b: Book, n: nat, head: nat, tick: nat,
                                           answers: nat -> Answer)
    requires keeps(b) && n <= |b.samples|
    requires forall r, i, a | keeps(r) && 0 <= i < |r.samples| :: keeps(ValidateOne(r, i, head, tick, a))
    ensures keeps(ValidateUpTo(b, n, head, tick, answers))
  {
    if n > 0 {
      EveryVisitKeeps(keeps, b, n - 1, head, tick, answers);
    }
  }

  lemma ReorgChain(chain: seq<nat>, used: set<nat>, start: nat, replacement: seq<nat>, used': set<nat>)
    requires ChainOk(chain, used) && 0 < start <= |chain| && used <= used'
    requires forall h | h in replacement :: h !in used && h in used'
    requires forall i, j | 0 <= i < j < |replacement| :: replacement[i] != replacement[j]
    ensures ChainOk(chain[..start] + replacement, used')
  {
    var r := chain[..start] + replacement;
    forall i, j | 0 <= i < j < |r|
      ensures r[i] != r[j]
    {
      if i < start <= j {
        assert r[i] == chain[i] && r[j] == replacement[j - start];
      }
    }
  }

  lemma ReorgSample(chain: seq<nat>, used: set<nat>, start: nat, replacement: seq<nat>, used': set<nat>, s: Sample, tick: nat)
    requires SampleOk(chain, used, s) && start <= |chain| == start + |replacement| && used <= used'
    requires forall h | h in replacement :: h !in used
    ensures SampleOk(chain[..start] + replacement, used', Invalidate(s, start, |chain| - 1, tick))
  {
    if s.height >= start {
      assert (chain[..start] + replacement)[s.height] == replacement[s.height - start];
    }
  }

  lemma ReorgSamples(chain: seq<nat>, used: set<nat>, start: nat, replacement: seq<nat>, used': set<nat>,
                     samples: seq<Sample>, tick: nat)
    requires SamplesOk(chain, used, samples) && start <= |chain| == start + |replacement| && used <= used'
    requires chain != [] && forall h | h in replacement :: h !in used
    ensures SamplesOk(chain[..start] + replacement, used', InvalidateAll(samples, start, |chain| - 1, tick))
  {
    var marked := InvalidateAll(samples, start, |chain| - 1, tick);
    forall k | 0 <= k < |marked|
      ensures SampleOk(chain[..start] + replacement, used', marked[k])
    {
      ReorgSample(chain, used, start, replacement, used', samples[k], tick);
    }
  }

  lemma ReportsSurvive(minAdvance: int, xs: seq<Sample>, ys: seq<Sample>, reports: seq<Report>, ok: nat)
    requires ReportsOk(minAdvance, xs, reports, ok) && |xs| == |ys|
    requires forall k | 0 <= k < |xs| :: xs[k].validated == ys[k].validated && xs[k].height == ys[k].height
    ensures ReportsOk(minAdvance, ys, reports, ok)
  {
    CountSame(xs, ys);
  }

  lemma ReplacedKeeps(b: Book, used: set<nat>, start: nat, replacement: seq<nat>, used': set<nat>, tick: nat)
    requires Consistent(b, used) && 0 < start <= |b.chain| == start + |replacement| && used <= used'
    requires forall h | h in replacement :: h !in used && h in used'
    requires forall i, j | 0 <= i < j < |replacement| :: replacement[i] != replacement[j]
    ensures Consistent(b.(chain := b.chain[..start] + replacement,
                          samples := InvalidateAll(b.samples, start, Head(b), tick)), used')
  {
    ReorgChain(b.chain, used, start, replacement, used');
    ReorgSamples(b.chain, used, start, replacement, used', b.samples, tick);
    ReportsSurvive(b.minAdvance, b.samples, InvalidateAll(b.samples, start, Head(b), tick), b.reports, b.ok);
  }

  lemma ReorgKeeps(b: Book, used: set<nat>, depth: nat, replacement: seq<nat>, tick: nat)
    requires Consistent(b, used) && 0 < depth < |b.chain| && |replacement| == depth
    requires Fresh(DoReorg(depth, replacement, tick), used)
    ensures Consistent(Reorg(b, depth, replacement, tick), UsedAfter(DoReorg(depth, replacement, tick), used))
  {
    var e := DoReorg(depth, replacement, tick);
    assert Hashes(e) == replacement;
    ReplacedKeeps(b, used, Head(b) - depth + 1, replacement, UsedAfter(e, used), tick);
  }

  lemma MineKeeps(b: Book, used: set<nat>, h: nat)
    requires Consistent(b, used) && h !in used
    ensures Consistent(b.(chain := b.chain + [h]), used + {h})
  {
    forall k | 0 <= k < |b.samples|
      ensures SampleOk(b.chain + [h], used + {h}, b.samples[k])
    {
      assert SampleOk(b.chain, used, b.samples[k]);
    }
  }

  lemma CaptureKeeps(b: Book, used: set<nat>, tick: nat, cs: seq<Candidate>)
    requires Consistent(b, used) && cs != []
    ensures Consistent(b.(samples := b.samples + [CaptureAt(b, tick, cs)]), used)
  {
    var s := CaptureAt(b, tick, cs);
    var more := b.samples + [s];
    assert more[..|more| - 1] == b.samples;
    assert SampleOk(b.chain, used, s);
  }

  lemma StepKeeps(b: Book, used: set<nat>, e: Event)
    requires Consistent(b, used) && Fresh(e, used)
    ensures Consistent(Step(b, e), UsedAfter(e, used))
  {
    match e
    case Mine(h) =>
      MineKeeps(b, used, h);
      assert UsedAfter(e, used) == used + {h};
    case DoReorg(depth, replacement, tick) =>
      if 0 < depth < |b.chain| && |replacement| == depth {
        ReorgKeeps(b, used, depth, replacement, tick);
      } else {
        MoreUsed(b, used, UsedAfter(e, used));
      }
    case Capture(tick, cs) =>
      assert UsedAfter(e, used) == used;
      if cs != [] {
        CaptureKeeps(b, used, tick, cs);
      }
    case Validate(tick, answers) =>
      assert UsedAfter(e, used) == used;
      ValidateKeeps(b, used, |b.samples|, tick, answers);
  }

  lemma MoreUsed(b: Book, used: set<nat>, used': set<nat>)
    requires Consistent(b, used) && used <= used'
    ensures Consistent(b, used')
  {
    forall k | 0 <= k < |b.samples|
      ensures SampleOk(b.chain, used', b.samples[k])
    {
      assert SampleOk(b.chain, used, b.samples[k]);
    }
  }

  ghost function UsedAfterAll(es: seq<Event>, used: set<nat>): set<nat>
    decreases |es|
  {
    if es == [] then used else UsedAfterAll(es[1..], UsedAfter(es[0], used))
  }

  ghost predicate FreshRun(es: seq<Event>, used: set<nat>)
    decreases |es|
  {
    es == [] || (Fresh(es[0], used) && FreshRun(es[1..], UsedAfter(es[0], used)))
  }

  ghost function Run(b: Book, es: seq<Event>): (r: Book)
    requires b.chain != []
    decreases |es|
  {
    if es == [] then b
    else
      assert Step(b, es[0]).chain != [];
      Run(Step(b, es[0]), es[1..])
  }

  /** Over every crash-free run of mining, reorgs, captures and validations with fresh block hashes,
      whatever the indexer answers. */
  lemma {:induction false} RunKeeps(b: Book, used: set<nat>, es: seq<Event>)
    requires Consistent(b, used) && FreshRun(es, used)
    ensures Consistent(Run(b, es), UsedAfterAll(es, used))
    ensures Run(b, es).minAdvance == b.minAdvance
    decreases |es|
  {
    if es != [] {
      StepKeeps(b, used, es[0]);
      RunKeeps(Step(b, es[0]), UsedAfter(es[0], used), es[1..]);
    }
  }

  /** A validated sample is final: no later step changes it. */
  lemma {:induction false} ValidatedIsFinal(b: Book, es: seq<Event>, i: nat)
    requires b.chain != [] && i < |b.samples| && b.samples[i].validated
    ensures i < |Run(b, es).samples| && Run(b, es).samples[i] == b.samples[i]
    decreases |es|
  {
    if es != [] {
      StepLeavesValidated(b, es[0], i);
      assert Step(b, es[0]).chain != [];
      ValidatedIsFinal(Step(b, es[0]), es[1..], i);
    }
  }

  lemma StepLeavesValidated(b: Book, e: Event, i: nat)
    requires b.chain != [] && i < |b.samples| && b.samples[i].validated
    ensures i < |Step(b, e).samples| && Step(b, e).samples[i] == b.samples[i]
  {
    if e.Validate? {
      ValidateLeaves(b, |b.samples|, e.tick, e.answers, i);
    }
  }

  lemma {:induction false} ValidateLeaves(b: Book, n: nat, tick: nat, answers: nat -> Answer, i: nat)
    requires b.chain != [] && i < |b.samples| && b.samples[i].validated && n <= |b.samples|
    ensures ValidateUpTo(b, n, Head(b), tick, answers).samples[i] == b.samples[i]
  {
    if n > 0 {
      ValidateLeaves(b, n - 1, tick, answers, i);
    }
  }

  // ---------------------------------------------------------------- honest indexer

  /** An indexer that knows the canonical chain: it rejects a sample of a replaced block and answers
      one of a canonical block with what was captured. */
  ghost predicate Honest(b: Book, answers: nat -> Answer) {
    forall i | 0 <= i < |b.samples| ::
      var s := b.samples[i];
      s.height < |b.chain| &&
      answers(i) == if b.chain[s.height] == s.hash then Answered(s.candidates) else Rejected(MISMATCH)
  }

  // ---------------------------------------------------------------- verdicts

  /** A pending sample is checked once the head is at least one block, and at least the configured
      number of blocks, past its own. */
  predicate Ripe(minAdvance: int, s: Sample, head: nat) {
    !s.validated && head >= s.height + 1 && head >= s.height + minAdvance
  }

  /** An answer is right when it is the very error that is expected, or, when none is, lists as many
      candidates with the same owner, state and energy at every position. */
  predicate Right(s: Sample, a: Answer) {
    match s.expectedError
    case Some(e) => a == Rejected(e)
    case None =>
      && a.Answered? && |a.candidates| == |s.candidates|
      && forall k | 0 <= k < |s.candidates| ::
           a.candidates[k].owner == s.candidates[k].owner && a.candidates[k].state == s.candidates[k].state
           && a.candidates[k].energy == s.candidates[k].energy
  }

  lemma ConfirmsIffRight(s: Sample, a: Answer)
    requires s.candidates != [] && s.winner == Winner(s.candidates).id
    ensures Confirms(s, a) <==> Right(s, a)
  {
    if s.expectedError.None? && a.Answered? && SameCandidates(s.candidates, a.candidates) {
      assert WithIds(a.candidates, s.candidates) == s.candidates;
    }
  }

  function HowMany(n: nat, p: nat -> bool): nat {
    if n == 0 then 0 else HowMany(n - 1, p) + (if p(n - 1) then 1 else 0)
  }

  function Accepted(b: Book, answers: nat -> Answer): nat -> bool {
    (i: nat) => i < |b.samples| && b.chain != [] && Ripe(b.minAdvance, b.samples[i], Head(b)) && Right(b.samples[i], answers(i))
  }

  function Refused(b: Book, answers: nat -> Answer): nat -> bool {
    (i: nat) => i < |b.samples| && b.chain != [] && Ripe(b.minAdvance, b.samples[i], Head(b)) && !Right(b.samples[i], answers(i))
  }

  /** Of the first n samples exactly the accepted ones have become validated; both kinds are counted. */
  ghost predicate Decided(b: Book, r: Book, n: nat, tick: nat, accepted: nat -> bool, refused: nat -> bool) {
    && |r.samples| == |b.samples| && r.minAdvance == b.minAdvance
    && (forall i | 0 <= i < |b.samples| ::
          r.samples[i] == if i < n && accepted(i) then b.samples[i].(validated := true, validatedTick := Some(tick))
                          else b.samples[i])
    && r.ok == b.ok + HowMany(n, accepted)
    && r.failed == b.failed + HowMany(n, refused)
  }

  /** What one pass decides, whatever the answers: a ripe sample with a right answer is validated at this
      tick, every other sample is left alone, and each kind is counted. */
  lemma PassDecides(b: Book, used: set<nat>, n: nat, tick: nat, answers: nat -> Answer)
    requires b.chain != [] && SamplesOk(b.chain, used, b.samples) && n <= |b.samples|
    ensures Decided(b, ValidateUpTo(b, n, Head(b), tick, answers), n, tick, Accepted(b, answers), Refused(b, answers))
  {
    var head, accepted, refused := Head(b), Accepted(b, answers), Refused(b, answers);
    forall r, i | Untouched(b, r, i)
      ensures Visited(b, r, ValidateOne(r, i, head, tick, answers(i)), i, tick, accepted(i), refused(i))
    {
      assert SampleOk(b.chain, used, b.samples[i]);
      OneDecides(b, r, i, tick, answers);
    }
    VisitsDecide(b, n, head, tick, answers, accepted, refused);
  }

  ghost predicate Untouched(b: Book, r: Book, i: int) {
    0 <= i < |b.samples| == |r.samples| && r.samples[i] == b.samples[i] && r.minAdvance == b.minAdvance
  }

  ghost predicate Visited(b: Book, r: Book, next: Book, i: nat, tick: nat, accepted: bool, refused: bool)
    requires i < |b.samples| == |r.samples|
  {
    && next.minAdvance == r.minAdvance
    && next.samples == (if accepted then r.samples[i := b.samples[i].(validated := true, validatedTick := Some(tick))]
                        else r.samples)
    && next.ok == r.ok + (if accepted then 1 else 0)
    && next.failed == r.failed + (if refused then 1 else 0)
  }

  lemma {:induction false} VisitsDecide(b: Book, n: nat, head: nat, tick: nat, answers: nat -> Answer,
                                        accepted: nat -> bool, refused: nat -> bool)
    requires n <= |b.samples|
    requires forall r, i | Untouched(b, r, i) ::
               Visited(b, r, ValidateOne(r, i, head, tick, answers(i)), i, tick, accepted(i), refused(i))
    ensures Decided(b, ValidateUpTo(b, n, head, tick, answers), n, tick, accepted, refused)
  {
    if n > 0 {
      VisitsDecide(b, n - 1, head, tick, answers, accepted, refused);
      var r := ValidateUpTo(b, n - 1, head, tick, answers);
      assert Untouched(b, r, n - 1);
      DecidedStep(b, r, ValidateOne(r, n - 1, head, tick, answers(n - 1)), n, tick, accepted, refused);
    }
  }

  lemma DecidedStep(b: Book, r: Book, next: Book, n: nat, tick: nat, accepted: nat -> bool, refused: nat -> bool)
    requires 0 < n <= |b.samples| && Decided(b, r, n - 1, tick, accepted, refused)
    requires Visited(b, r, next, n - 1, tick, accepted(n - 1), refused(n - 1))
    ensures Decided(b, next, n, tick, accepted, refused)
  {
  }

  lemma OneDecides(b: Book, r: Book, i: nat, tick: nat, answers: nat -> Answer)
    requires i < |b.samples| == |r.samples| && r.samples[i] == b.samples[i] && r.minAdvance == b.minAdvance && b.chain != []
    requires b.samples[i].candidates != [] && b.samples[i].winner == Winner(b.samples[i].candidates).id
    ensures Visited(b, r, ValidateOne(r, i, Head(b), tick, answers(i)), i, tick, Accepted(b, answers)(i), Refused(b, answers)(i))
  {
    ConfirmsIffRight(b.samples[i], answers(i));
  }

  lemma {:induction false} HowManyNone(n: nat, p: nat -> bool)
    requires forall i | 0 <= i < n :: !p(i)
    ensures HowMany(n, p) == 0
  {
    if n > 0 {
      HowManyNone(n - 1, p);
    }
  }

  lemma HonestAnswerIsRight(chain: seq<nat>, used: set<nat>, s: Sample, a: Answer)
    requires SampleOk(chain, used, s) && !s.validated
    requires a == if chain[s.height] == s.hash then Answered(s.candidates) else Rejected(MISMATCH)
    ensures Right(s, a)
  {
  }

  /** With an honest indexer one validation pass settles every ripe sample, reorged or not, with no
      failure, and touches no sample that is not ripe. */
  lemma HonestPassSettlesAll(b: Book, used: set<nat>, tick: nat, answers: nat -> Answer)
    requires b.chain != [] && SamplesOk(b.chain, used, b.samples) && Honest(b, answers)
    ensures var r := ValidateUpTo(b, |b.samples|, Head(b), tick, answers);
            && |r.samples| == |b.samples| && r.failed == b.failed
            && forall i | 0 <= i < |b.samples| ::
                 if Ripe(b.minAdvance, b.samples[i], Head(b)) then r.samples[i].validated else r.samples[i] == b.samples[i]
  {
    PassDecides(b, used, |b.samples|, tick, answers);
    forall i | 0 <= i < |b.samples|
      ensures !Refused(b, answers)(i)
      ensures Ripe(b.minAdvance, b.samples[i], Head(b)) <==> Accepted(b, answers)(i)
    {
      assert SampleOk(b.chain, used, b.samples[i]);
      if !b.samples[i].validated {
        HonestAnswerIsRight(b.chain, used, b.samples[i], answers(i));
      }
    }
    HowManyNone(|b.samples|, Refused(b, answers));
  }

  /** A capture records the head block as it is, and the candidates as they were listed. */
  lemma CaptureRecordsHead(b: Book, tick: nat, cs: seq<Candidate>)
    requires b.chain != [] && cs != []
    ensures var s := CaptureAt(b, tick, cs);
            && s.height == |b.chain| - 1 && s.hash == b.chain[|b.chain| - 1] && s.tick == tick && s.candidates == cs
            && !s.validated && s.expectedError == None
            && s.winner == Winner(cs).id
  {
  }

  /** A reorg replaces the top blocks and nothing below, and marks exactly the pending samples there. */
  lemma ReorgReplacesTop(b: Book, depth: nat, replacement: seq<nat>, tick: nat)
    requires 0 < depth < |b.chain| && |replacement| == depth
    ensures var r := Reorg(b, depth, replacement, tick);
            var low := |b.chain| - depth;
            && Step(b, DoReorg(depth, replacement, tick)) == r
            && |r.chain| == |b.chain|
            && (forall h | 0 <= h < |b.chain| :: r.chain[h] == if h < low then b.chain[h] else replacement[h - low])
            && |r.samples| == |b.samples|
            && (forall i | 0 <= i < |b.samples| ::
                  var s := b.samples[i];
                  r.samples[i] == if !s.validated && low <= s.height < |b.chain|
                                  then s.(expectedError := Some("SNAPSHOT_ID_MISMATCH"), invalidatedTick := Some(tick)) else s)
            && r.ok == b.ok && r.failed == b.failed && r.reports == b.reports
  {
  }

  // ---------------------------------------------------------------- in place

  class SampleBook {
    const minAdvance: int
    var chain: seq<nat>
    var samples: seq<Sample>
    var ok: nat
    var failed: nat
    var reports: seq<Report>

    ghost function State(): Book
      reads this
    {
      Book(minAdvance, chain, samples, ok, failed, reports)
    }

    constructor (minAdvance: int, genesis: nat)
      ensures State() == Book(minAdvance, [genesis], [], 0, 0, [])
      ensures Consistent(State(), {genesis})
    {
      this.minAdvance := minAdvance;
      chain, samples, ok, failed, reports := [genesis], [], 0, 0, [];
    }

    method MineBlock(hash: nat)
      modifies this
      ensures State() == old(State()).(chain := old(chain) + [hash])
    {
      chain := chain + [hash];
    }

    /** `perform_reorg`: invalidate, mine the replacement blocks one by one, then mark pending samples. */
    method PerformReorg(reorgDepth: nat, replacement: seq<nat>, tick: nat)
      requires 0 < reorgDepth < |chain| && |replacement| == reorgDepth
      modifies this
      ensures State() == Reorg(old(State()), reorgDepth, replacement, tick)
    {
      var height := |chain| - 1;
      var start := height - reorgDepth + 1;
      chain := chain[..start];
      var i := 0;
      while i < reorgDepth
        invariant 0 <= i <= reorgDepth
        invariant State() == old(State()).(chain := old(chain)[..start] + replacement[..i])
      {
        MineBlock(replacement[i]);
        i := i + 1;
      }
      assert replacement[..i] == replacement;
      var k := 0;
      while k < |samples|
        invariant 0 <= k <= |samples| == |old(samples)|
        invariant State() == old(State()).(chain := chain, samples := samples)
        invariant chain == old(chain)[..start] + replacement
        invariant forall j | 0 <= j < |samples| ::
                    samples[j] == if j < k then Invalidate(old(samples)[j], start, height, tick) else old(samples)[j]
      {
        if !samples[k].validated && start <= samples[k].height <= height {
          samples := samples[k := samples[k].(expectedError := Some(MISMATCH), invalidatedTick := Some(tick))];
        }
        k := k + 1;
      }
      assert samples == InvalidateAll(old(samples), start, height, tick);
    }

    method CaptureSample(tick: nat, candidates: seq<Candidate>) returns (r: Result<nat, string>)
      requires chain != []
      modifies this
      ensures candidates == [] ==> r.Failure? && State() == old(State())
      ensures candidates != [] ==> r == Success(old(|samples|))
      ensures candidates != [] ==>
                State() == old(State()).(samples := old(samples) + [CaptureAt(old(State()), tick, candidates)])
    {
      var w := ChooseWinner(candidates);
      if w.Failure? {
        return Failure(w.error);
      }
      var height := |chain| - 1;
      r := Success(|samples|);
      samples := samples + [Sample(tick, height, chain[height], candidates, w.value.id, None, None, false, None)];
    }

    /** `validate_pending_validator_samples`. */
    method ValidatePending(tick: nat, answers: nat -> Answer) returns (checked: nat, failures: nat)
      requires chain != []
      modifies this
      ensures State() == ValidateUpTo(old(State()), |old(samples)|, Head(old(State())), tick, answers)
      ensures failed == old(failed) + failures && ok == old(ok) + (checked - failures)
    {
      checked, failures := 0, 0;
      var head := |chain| - 1;
      var k := 0;
      while k < |samples|
        invariant 0 <= k <= |samples| == |old(samples)| && chain == old(chain)
        invariant State() == ValidateUpTo(old(State()), k, head, tick, answers)
        invariant failed == old(failed) + failures && ok == old(ok) + (checked - failures)
      {
        var s := samples[k];
        if !s.validated && head >= s.height + Advance(minAdvance) {
          checked := checked + 1;
          if Confirms(s, answers(k)) {
            samples := samples[k := s.(validated := true, validatedTick := Some(tick))];
            ok := ok + 1;
            reports := reports + [Report(k, head)];
          } else {
            failures := failures + 1;
            failed := failed + 1;
          }
        }
        k := k + 1;
      }
    }
  }
}
