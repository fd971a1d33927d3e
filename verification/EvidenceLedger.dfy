/** The memory ledger of closure evidence, and scripts of ledger entries as the specification of
    everything that is accounted in it. */
module EvidenceLedger {
  import opened Ordering

  datatype Limits = Limits(temporary: nat, memory: Option<nat>)

  /** A workspace of that size fits into a word and into both limits, on top of `base`. */
  predicate Admits(limits: Limits, base: nat, workspace: nat)
  {
    && workspace < U64
    && workspace <= limits.temporary
    && base + workspace < U64
    && (limits.memory.Some? ==> base + workspace <= limits.memory.value)
  }

  // ----- Scripts

  /** One use of the ledger.  A guard is any step that can fail for a reason of its own: a
      cancellation, an allocation, malformed content.  Sizes are unbounded; one that overflows a
      word is refused like any other that is too large. */
  datatype Entry =
    | Temporary(bytes: nat)
    | Retained(bytes: nat)
    | Released(bytes: nat)
    | Guard(halts: bool)
    | Require(aligned: bool)

  /** What a piece of the preparation enters, in order. */
  datatype Script = Idle | Use(entry: Entry) | Then(first: Script, next: Script)

  datatype Outcome = Done | LimitExceeded | Halted | Underflow | Misaligned

  /** A run that went well, met a limit or was halted; the other two are errors in the program. */
  predicate Ordinary(outcome: Outcome) { outcome != Underflow && outcome != Misaligned }

  /** The ledger during a run: what it retains, every workspace it was asked for, and whether the
      run goes on. */
  datatype Ledger = Ledger(retained: nat, asked: seq<nat>, outcome: Outcome)

  const EMPTY: Ledger := Ledger(0, [], Done)

  function Enter(limits: Limits, base: nat, s: Ledger, e: Entry): Ledger
  {
    match e
    case Temporary(n) =>
      Ledger(s.retained, s.asked + [s.retained + n],
             if Admits(limits, base, s.retained + n) then Done else LimitExceeded)
    case Retained(n) =>
      if Admits(limits, base, s.retained + n)
      then Ledger(s.retained + n, s.asked + [s.retained + n], Done)
      else Ledger(s.retained, s.asked + [s.retained + n], LimitExceeded)
    case Released(n) =>
      if n <= s.retained then Ledger(s.retained - n, s.asked, Done) else s.(outcome := Underflow)
    case Guard(halts) => if halts then s.(outcome := Halted) else s
    case Require(aligned) => if aligned then s else s.(outcome := Misaligned)
  }

  /** A script is followed until an entry fails. */
  function Run(limits: Limits, base: nat, s: Ledger, script: Script): Ledger
    decreases script
  {
    if s.outcome != Done then s
    else
      match script
      case Idle => s
      case Use(e) => Enter(limits, base, s, e)
      case Then(a, b) => Run(limits, base, Run(limits, base, s, a), b)
  }

  /** A run of two pieces continues with the second where the first left the ledger. */
  lemma RunThen(limits: Limits, base: nat, s: Ledger, a: Script, b: Script)
    ensures Run(limits, base, s, Then(a, b)) == Run(limits, base, Run(limits, base, s, a), b)
    ensures Run(limits, base, s, a).outcome != Done ==> Run(limits, base, s, Then(a, b)) == Run(limits, base, s, a)
  {
  }

  // ----- The meaning of a script, apart from any limit

  /** What a ledger that retained `total` retains after the script. */
  function After(total: nat, script: Script): nat
    decreases script
  {
    match script
    case Idle => total
    case Use(Retained(n)) => total + n
    case Use(Released(n)) => if n <= total then total - n else 0
    case Use(_) => total
    case Then(a, b) => After(After(total, a), b)
  }

  /** Every workspace the script asks for, in order. */
  function Asked(total: nat, script: Script): seq<nat>
    decreases script
  {
    match script
    case Idle => []
    case Use(Temporary(n)) => [total + n]
    case Use(Retained(n)) => [total + n]
    case Use(_) => []
    case Then(a, b) => Asked(total, a) + Asked(After(total, a), b)
  }

  /** No guard of the script stops it. */
  predicate Unguarded(script: Script)
  {
    match script
    case Idle => true
    case Use(e) => e != Guard(true) && e != Require(false)
    case Then(a, b) => Unguarded(a) && Unguarded(b)
  }

  predicate AllAdmitted(limits: Limits, base: nat, asked: seq<nat>)
  {
    forall peak | peak in asked :: Admits(limits, base, peak)
  }

  /** All of `asked` is admitted, except for the last of it if that is why the run stopped. */
  predicate Judged(limits: Limits, base: nat, asked: seq<nat>, outcome: Outcome)
  {
    if outcome == LimitExceeded
    then asked != [] && AllAdmitted(limits, base, asked[..|asked| - 1]) && !Admits(limits, base, asked[|asked| - 1])
    else AllAdmitted(limits, base, asked)
  }

  /** The bounds in numbers: of what a run asked for, everything but a refused last workspace is
      within the temporary limit, and with the bytes that were live before within a word and the
      memory limit; and a refused one is not. */
  lemma JudgedByNumbers(limits: Limits, base: nat, asked: seq<nat>, outcome: Outcome)
    requires Judged(limits, base, asked, outcome)
    ensures forall i | 0 <= i < |asked| && (outcome == LimitExceeded ==> i < |asked| - 1) ::
              && asked[i] <= limits.temporary && base + asked[i] < U64
              && (limits.memory.Some? ==> base + asked[i] <= limits.memory.value)
    ensures outcome == LimitExceeded ==>
              && asked != []
              && var w := asked[|asked| - 1];
                 || w > limits.temporary || base + w >= U64
                 || (limits.memory.Some? && base + w > limits.memory.value)
  {
    forall i | 0 <= i < |asked| && (outcome == LimitExceeded ==> i < |asked| - 1)
      ensures Admits(limits, base, asked[i])
    {
      assert outcome == LimitExceeded ==> asked[..|asked| - 1][i] == asked[i];
    }
  }

  /** A run is done exactly when no guard stops it, no release underflows and every workspace the
      script asks for is admitted. */
  lemma {:induction false} Verdict(limits: Limits, base: nat, s: Ledger, script: Script)
    requires s.outcome == Done
    ensures var r := Run(limits, base, s, script);
      && (r.outcome == Done ==> && r.retained == After(s.retained, script)
                                && r.asked == s.asked + Asked(s.retained, script)
                                && Unguarded(script)
                                && AllAdmitted(limits, base, Asked(s.retained, script)))
      && (Unguarded(script) && AllAdmitted(limits, base, Asked(s.retained, script)) ==>
            r.outcome == Done || r.outcome == Underflow)
    decreases script
  {
    match script
    case Idle =>
    case Use(_) =>
    case Then(a, b) =>
      Verdict(limits, base, s, a);
      var t := Run(limits, base, s, a);
      var first, next := Asked(s.retained, a), Asked(After(s.retained, a), b);
      assert AllAdmitted(limits, base, first + next)
         <==> AllAdmitted(limits, base, first) && AllAdmitted(limits, base, next);
      if t.outcome == Done {
        Verdict(limits, base, t, b);
        assert s.asked + first + next == s.asked + (first + next);
      }
  }

  /** What a run has asked for is an initial part of what the script asks for, and only the last of
      it can have been refused. */
  lemma {:induction false} AskedInOrder(limits: Limits, base: nat, s: Ledger, script: Script) returns (recent: seq<nat>)
    requires s.outcome == Done
    ensures var r := Run(limits, base, s, script);
      r.asked == s.asked + recent && recent <= Asked(s.retained, script) && Judged(limits, base, recent, r.outcome)
    decreases script
  {
    match script
    case Idle => recent := [];
    case Use(_) => recent := Asked(s.retained, script);
    case Then(a, b) =>
      recent := AskedInOrder(limits, base, s, a);
      Verdict(limits, base, s, a);
      var t := Run(limits, base, s, a);
      if t.outcome == Done {
        var more := AskedInOrder(limits, base, t, b);
        JudgedJoin(limits, base, recent, more, Run(limits, base, t, b).outcome);
        assert s.asked + recent + more == s.asked + (recent + more);
        recent := recent + more;
      }
  }

  lemma JudgedJoin(limits: Limits, base: nat, a: seq<nat>, b: seq<nat>, outcome: Outcome)
    requires AllAdmitted(limits, base, a) && Judged(limits, base, b, outcome)
    ensures Judged(limits, base, a + b, outcome)
  {
    if b != [] {
      assert (a + b)[..|a + b| - 1] == a + b[..|b| - 1];
    }
  }

  // ----- Scripts whose releases are covered

  /** No release of the script exceeds what is retained by then. */
  predicate Solvent(total: nat, script: Script)
    decreases script
  {
    match script
    case Idle => true
    case Use(e) => e.Released? ==> e.bytes <= total
    case Then(a, b) => Solvent(total, a) && Solvent(After(total, a), b)
  }

  /** The script releases nothing. */
  predicate KeepsAll(script: Script)
  {
    match script
    case Idle => true
    case Use(e) => !e.Released?
    case Then(a, b) => KeepsAll(a) && KeepsAll(b)
  }

  lemma {:induction false} KeepsAllSolvent(total: nat, script: Script)
    requires KeepsAll(script)
    ensures Solvent(total, script)
    decreases script
  {
    match script
    case Idle =>
    case Use(_) =>
    case Then(a, b) =>
      KeepsAllSolvent(total, a);
      KeepsAllSolvent(After(total, a), b);
  }

  lemma {:induction false} SolventRun(limits: Limits, base: nat, s: Ledger, script: Script)
    requires s.outcome == Done && Solvent(s.retained, script)
    ensures Run(limits, base, s, script).outcome != Underflow
    decreases script
  {
    match script
    case Idle =>
    case Use(_) =>
    case Then(a, b) =>
      SolventRun(limits, base, s, a);
      Verdict(limits, base, s, a);
      if Run(limits, base, s, a).outcome == Done {
        SolventRun(limits, base, Run(limits, base, s, a), b);
      }
  }

  /** A run of a solvent script goes through exactly when no guard stops it and every workspace it
      asks for is admitted. */
  lemma SolventVerdict(limits: Limits, base: nat, s: Ledger, script: Script)
    requires s.outcome == Done && Solvent(s.retained, script)
    ensures Run(limits, base, s, script).outcome == Done <==>
            Unguarded(script) && AllAdmitted(limits, base, Asked(s.retained, script))
  {
    Verdict(limits, base, s, script);
    SolventRun(limits, base, s, script);
  }

  /** All the bytes a script asks for or enters, one after the other. */
  function Volume(script: Script): nat
  {
    match script
    case Idle => 0
    case Use(Temporary(n)) => n
    case Use(Retained(n)) => n
    case Use(_) => 0
    case Then(a, b) => Volume(a) + Volume(b)
  }

  lemma {:induction false} AskedWithinVolume(total: nat, script: Script)
    ensures After(total, script) <= total + Volume(script)
    ensures forall peak | peak in Asked(total, script) :: peak <= total + Volume(script)
    decreases script
  {
    match script
    case Idle =>
    case Use(_) =>
    case Then(a, b) =>
      AskedWithinVolume(total, a);
      AskedWithinVolume(After(total, a), b);
  }

  function Largest(asked: seq<nat>): (m: nat)
    requires asked != []
    ensures m in asked && forall peak | peak in asked :: peak <= m
  {
    var last := asked[|asked| - 1];
    if |asked| == 1 then last
    else
      var rest := asked[..|asked| - 1];
      assert asked == rest + [last];
      var m := Largest(rest);
      if m < last then last else m
  }

  /** Both limits only ever look at the largest workspace. */
  lemma LargestDecides(limits: Limits, base: nat, asked: seq<nat>)
    requires asked != []
    ensures AllAdmitted(limits, base, asked) <==> Admits(limits, base, Largest(asked))
  {
  }

  /** The verdict on a run from the empty ledger that does not fail by an error in the program. */
  lemma Judgement(limits: Limits, base: nat, script: Script, r: Ledger)
    requires r == Run(limits, base, EMPTY, script) && Ordinary(r.outcome) && Asked(0, script) != []
    ensures r.outcome == Done <==> Unguarded(script) && Admits(limits, base, Largest(Asked(0, script)))
    ensures r.asked <= Asked(0, script) && Judged(limits, base, r.asked, r.outcome)
    ensures r.outcome == Done ==> r.asked == Asked(0, script)
  {
    Verdict(limits, base, EMPTY, script);
    var recent := AskedInOrder(limits, base, EMPTY, script);
    assert r.asked == recent;
    LargestDecides(limits, base, Asked(0, script));
  }

  // ----- The ledger itself

  class EvidenceBudget {
    const limits: Limits
    const base: nat
    var retained: nat
    /** Every workspace asked for so far, admitted or not. */
    ghost var asked: seq<nat>

    ghost function State(outcome: Outcome): Ledger
      reads this
    {
      Ledger(retained, asked, outcome)
    }

    constructor (limits: Limits, base: nat)
      ensures State(Done) == EMPTY && this.limits == limits && this.base == base
    {
      this.limits, this.base, this.retained, this.asked := limits, base, 0, [];
    }

    method EnsureTemporary(bytes: nat) returns (outcome: Outcome)
      modifies this`asked
      ensures State(outcome) == Enter(limits, base, old(State(Done)), Temporary(bytes))
      ensures asked == old(asked) + [retained + bytes] && (outcome == Done || outcome == LimitExceeded)
      ensures outcome == Done <==>
                && retained + bytes <= limits.temporary && retained + bytes < U64 && base + retained + bytes < U64
                && (limits.memory.Some? ==> base + retained + bytes <= limits.memory.value)
    {
      asked := asked + [retained + bytes];
      var workspace := retained + bytes;
      if U64 <= workspace {
        return LimitExceeded;
      }
      if limits.temporary < workspace {
        return LimitExceeded;
      }
      var live := base + workspace;
      if U64 <= live {
        return LimitExceeded;
      }
      if limits.memory.Some? && limits.memory.value < live {
        return LimitExceeded;
      }
      return Done;
    }

    method Retain(bytes: nat) returns (outcome: Outcome)
      modifies this
      ensures State(outcome) == Enter(limits, base, old(State(Done)), Retained(bytes))
      ensures retained == if outcome == Done then old(retained) + bytes else old(retained)
      ensures asked == old(asked) + [old(retained) + bytes] && (outcome == Done || outcome == LimitExceeded)
      ensures outcome == Done <==>
                && old(retained) + bytes <= limits.temporary && base + old(retained) + bytes < U64
                && (limits.memory.Some? ==> base + old(retained) + bytes <= limits.memory.value)
    {
      outcome := EnsureTemporary(bytes);
      if outcome == Done {
        retained := retained + bytes;
      }
    }

    method Release(bytes: nat) returns (outcome: Outcome)
      modifies this`retained
      ensures State(outcome) == Enter(limits, base, old(State(Done)), Released(bytes))
      ensures outcome == (if bytes <= old(retained) then Done else Underflow)
      ensures retained == if bytes <= old(retained) then old(retained) - bytes else old(retained)
    {
      if retained < bytes {
        return Underflow;
      }
      retained := retained - bytes;
      return Done;
    }
  }
}
