/** The evolver's search attempt by attempt: which parent each one draws, what it may add, when
    the search stops, and why propose refuses. */
module SearchTrace {
  import opened Wrappers
  import opened Executors
  import opened LocalEvolver
  import opened EvolverProperties

  /** Parents are bred from; seeds only while there are none. */
  predicate Breeding(request: ProposalRequest, pool: seq<CandidateProgram>) {
    if request.parents == [] then pool == request.seedPrograms
    else
      && |pool| == |request.parents|
      && forall i :: 0 <= i < |pool| ==> pool[i] == request.parents[i].program
  }

  lemma PoolIs(e: Evolver, request: ProposalRequest, pool: seq<CandidateProgram>)
    ensures Breeding(request, pool) <==> pool == e.Parents(request)
  {
  }

  /** One attempt: the next draw picks the parent, the ones after it the mutation; what comes of
      it is added if it is valid and new. */
  predicate Tries(e: Evolver, pool: seq<CandidateProgram>, draws: nat -> nat, s: Search, t: Search)
    requires pool != []
  {
    var parent := pool[draws(s.drawn) % |pool|];
    var (mutation, drawn) := e.Mutated(parent, draws, s.drawn + 1);
    && t.attempts == s.attempts + 1
    && t.drawn == drawn
    && (t.crashed <==> e.Crashes(parent, draws, s.drawn + 1))
    && if !t.crashed && mutation.Some? && e.validate(mutation.value.program) && mutation.value.program.sha256 !in s.seen
       then
         && |t.proposals| == |s.proposals| + 1
         && s.proposals <= t.proposals
         && Attributed(parent, mutation.value, t.proposals[|s.proposals|])
         && t.seen == s.seen + {mutation.value.program.sha256}
       else t.proposals == s.proposals && t.seen == s.seen
  }

  /** Enough proposals, no attempts left, or an overflow. */
  predicate Stops(batchSize: int, s: Search) {
    s.crashed || batchSize <= |s.proposals| || batchSize * 200 <= s.attempts
  }

  /** A search from its start to its end, on the random stream of the request's seed. */
  predicate Traced(e: Evolver, request: ProposalRequest, pool: seq<CandidateProgram>, trace: seq<Search>)
    requires pool != []
  {
    && trace != []
    && (forall k :: 0 <= k < |trace| - 1 ==>
          !Stops(request.batchSize, trace[k]) && Tries(e, pool, e.stream(request.seed), trace[k], trace[k + 1]))
    && Stops(request.batchSize, trace[|trace| - 1])
  }

  lemma AttemptTries(e: Evolver, pool: seq<CandidateProgram>, draws: nat -> nat, s: Search)
    requires pool != [] && !s.crashed
    ensures Tries(e, pool, draws, s, e.Attempt(pool, draws, s))
  {
    hide Evolver.Mutated, Evolver.Crashes;
    var parent := pool[draws(s.drawn) % |pool|];
    var mutation := e.Mutated(parent, draws, s.drawn + 1).0;
    if mutation.Some? {
      var p := e.MutationProposal(parent, mutation.value);
      assert Attributed(parent, mutation.value, p);
      assert (s.proposals + [p])[|s.proposals|] == p;
    }
  }

  lemma {:induction false} TraceFrom(e: Evolver, request: ProposalRequest, pool: seq<CandidateProgram>, s: Search)
    returns (trace: seq<Search>)
    requires pool != [] && 1 <= request.batchSize
    ensures Traced(e, request, pool, trace) && trace[0] == s
    ensures trace[|trace| - 1] == e.Searched(pool, e.stream(request.seed), request.batchSize, s)
    decreases request.batchSize * MAX_ATTEMPTS_PER_PROPOSAL - s.attempts
  {
    hide Evolver.Attempt, Tries;
    if Stops(request.batchSize, s) {
      trace := [s];
    } else {
      AttemptTries(e, pool, e.stream(request.seed), s);
      var next := e.Attempt(pool, e.stream(request.seed), s);
      AttemptSpendsOne(e, pool, e.stream(request.seed), s);
      var rest := TraceFrom(e, request, pool, next);
      trace := [s] + rest;
      assert trace[|trace| - 1] == rest[|rest| - 1];
      assert forall k :: 1 <= k < |trace| ==> trace[k] == rest[k - 1];
    }
  }

  lemma AttemptSpendsOne(e: Evolver, pool: seq<CandidateProgram>, draws: nat -> nat, s: Search)
    requires pool != []
    ensures e.Attempt(pool, draws, s).attempts == s.attempts + 1
  {
    hide Evolver.Mutated, Evolver.Crashes;
  }

  /** Once the seeds are in and every parent has a block, propose is such a search, started with
      nothing but the seeds; a full batch is what it found, anything less is exhaustion, and an
      overflow is reported as one. */
  lemma SearchIsTraced(e: Evolver, request: ProposalRequest, pool: seq<CandidateProgram>)
    returns (trace: seq<Search>)
    requires 1 <= request.batchSize && request.seedPrograms != [] && e.FirstSearch(request).Success?
    requires Breeding(request, pool) && forall i :: 0 <= i < |pool| ==> EvolveBlock(pool[i].source).Some?
    ensures pool != [] && Traced(e, request, pool, trace)
    ensures trace[0].attempts == 0 == trace[0].drawn && !trace[0].crashed
    ensures request.generation != 0 ==> trace[0].proposals == [] && trace[0].seen == request.seen
    ensures var last := trace[|trace| - 1];
            match e.Proposed(request)
            case Success(proposals) => !last.crashed && proposals == last.proposals && |proposals| == request.batchSize
            case Failure(error) =>
              if last.crashed then error == LiteralOverflow
              else error == Exhausted && |last.proposals| != request.batchSize
  {
    hide EvolveBlock, Traced, Evolver.Searched, Evolver.WithSeeds;
    PoolIs(e, request, pool);
    var s := e.FirstSearch(request).value;
    if request.generation == 0 {
      e.SeedsSpendNothing(request, |request.seedPrograms|);
    }
    trace := TraceFrom(e, request, pool, s);
  }

  // ----- every parent can breed

  lemma MutatedElsewhere(e: Evolver, parent: CandidateProgram, draws: nat -> nat, at: nat, other: nat -> nat, from: nat)
    requires draws(at) == other(from) && draws(at + 1) == other(from + 1)
    ensures e.Mutated(parent, draws, at).0 == e.Mutated(parent, other, from).0
    ensures e.Crashes(parent, draws, at) == e.Crashes(parent, other, from)
  {
    hide EvolveBlock, Replacements, Evolver.MutableTokens, Evolver.GrowsTooLarge, Evolver.ReplacementText;
  }

  /** Whatever valid and new mutant any one of the parents has under some draws, the next attempt
      of a search adds it under some others. */
  lemma AnyParentCanBreed(e: Evolver, pool: seq<CandidateProgram>, p: nat, s: Search, draws: nat -> nat, at: nat)
    returns (others: nat -> nat)
    requires p < |pool| && e.Mutated(pool[p], draws, at).0.Some? && !e.Crashes(pool[p], draws, at)
    requires var m := e.Mutated(pool[p], draws, at).0.value; e.validate(m.program) && m.program.sha256 !in s.seen
    ensures var t := e.Attempt(pool, others, s);
            && |t.proposals| == |s.proposals| + 1 && s.proposals <= t.proposals
            && Attributed(pool[p], e.Mutated(pool[p], draws, at).0.value, t.proposals[|s.proposals|])
  {
    hide Evolver.Mutated, Evolver.Crashes;
    others := (n: nat) => if n == s.drawn then p else if n < s.drawn then 0 else draws(at + n - s.drawn - 1);
    SmallMod(p, |pool|);
    assert others(s.drawn) == p && others(s.drawn + 1) == draws(at) && others(s.drawn + 2) == draws(at + 1);
    MutatedElsewhere(e, pool[p], draws, at, others, s.drawn + 1);
  }

  // ----- why propose refuses before it searches

  /** With the seeds before it taken and room left, seed k is new and fails validation. */
  predicate FirstInvalid(e: Evolver, request: ProposalRequest, picks: seq<nat>, k: nat) {
    && k < |request.seedPrograms|
    && SeedsPicked(request, picks, k) && |picks| < request.batchSize
    && request.seedPrograms[k].sha256 !in request.seen
    && !Among(request, picks, request.seedPrograms[k].sha256)
    && !e.validate(request.seedPrograms[k])
  }

  lemma {:induction false} InvalidSeedIsFirst(e: Evolver, request: ProposalRequest, count: nat)
    requires 1 <= request.batchSize && count <= |request.seedPrograms| && e.WithSeeds(request, count).Failure?
    ensures exists picks, k :: FirstInvalid(e, request, picks, k)
  {
    hide SeedsPicked, AreSeeds, Among;
    if e.WithSeeds(request, count - 1).Failure? {
      InvalidSeedIsFirst(e, request, count - 1);
    } else {
      var picks := SeedsAreTaken(e, request, count - 1);
      var s := e.WithSeeds(request, count - 1).value;
      SameLength(request, picks, s.proposals);
      assert FirstInvalid(e, request, picks, count - 1);
    }
  }

  /** Batch size, then seeds, then the validation of the seeds, then the blocks of the parents. */
  lemma ProposeRefusesInOrder(e: Evolver, request: ProposalRequest, pool: seq<CandidateProgram>)
    requires Breeding(request, pool)
    ensures e.Proposed(request) == Failure(BadBatchSize) <==> request.batchSize < 1
    ensures e.Proposed(request) == Failure(NoSeeds) <==> 1 <= request.batchSize && request.seedPrograms == []
    ensures e.Proposed(request) == Failure(InvalidSeed) ==>
              request.generation == 0 && exists picks, k :: FirstInvalid(e, request, picks, k)
    ensures e.Proposed(request) == Failure(NoEvolveBlock) <==>
              && 1 <= request.batchSize && request.seedPrograms != [] && e.Proposed(request) != Failure(InvalidSeed)
              && exists i :: 0 <= i < |pool| && EvolveBlock(pool[i].source).None?
  {
    hide EvolveBlock, Evolver.Searched, Evolver.WithSeeds, FirstInvalid;
    PoolIs(e, request, pool);
    if e.Proposed(request) == Failure(InvalidSeed) {
      InvalidSeedIsFirst(e, request, |request.seedPrograms|);
    }
  }
}
