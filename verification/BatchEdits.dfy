/** Editing a batch: which instances it is assigned, and which constraint edits a running batch accepts. */
module BatchEdits {
  import opened Common
  import opened Queue
  import opened Counting
  import opened ImportLimits
  import InstanceSync
  import opened WindowSafety

  // ---- Assigned instances --------------------------------------------------------------------------------

  class Assignments {
    var pairs: set<(string, InstanceId)>

    constructor ()
      ensures pairs == {}
    {
      pairs := {};
    }

    /** Makes the assigned instances of a batch exactly those that its expression matches; other batches keep
        theirs. It fails, changing nothing, for a batch in migration or an instance the expression fails on. */
    method Update(batch: string, status: BatchStatus, expr: string, instances: set<InstanceId>, criteria: map<(InstanceId, string), bool>)
      returns (reply: Reply<()>)
      requires forall p: (string, InstanceId) | p in pairs :: p.1 in instances
      modifies this
      ensures status != Defined ==> reply == Err(NotPermitted)
      ensures reply.Ok? <==> status == Defined && forall i | i in instances :: (i, expr) in criteria
      ensures !reply.Ok? ==> pairs == old(pairs)
      ensures reply.Ok? ==> forall p: (string, InstanceId) ::
                p in pairs <==> if p.0 == batch then p.1 in instances && criteria[(p.1, expr)] else p in old(pairs)
    {
      if status != Defined {
        return Err(NotPermitted);
      }
      var tx := pairs;
      var todo := set p: (string, InstanceId) | p in pairs && p.0 == batch :: p.1;
      ghost var own := todo;
      var matched: set<InstanceId> := {};
      while todo != {}
        invariant todo <= own && own <= instances && matched <= own - todo
        invariant forall i | i in own - todo :: (i, expr) in criteria && (i in matched <==> criteria[(i, expr)])
        invariant forall p: (string, InstanceId) ::
                    p in tx <==> p in pairs && !(p.0 == batch && p.1 in own - todo && p.1 !in matched)
        decreases todo
      {
        var i :| i in todo;
        if (i, expr) !in criteria {
          return Err(Internal);
        }
        if criteria[(i, expr)] {
          matched := matched + {i};
        } else {
          tx := tx - {(batch, i)};
        }
        todo := todo - {i};
      }
      todo := instances;
      while todo != {}
        invariant todo <= instances
        invariant forall i | i in instances - todo :: (i, expr) in criteria
        invariant forall p: (string, InstanceId) | p.0 != batch :: p in tx <==> p in pairs
        invariant forall i :: (batch, i) in tx <==> i in matched || (i in instances - todo && criteria[(i, expr)])
        decreases todo
      {
        var i :| i in todo;
        if (i, expr) !in criteria {
          return Err(Internal);
        }
        if criteria[(i, expr)] && i !in matched {
          tx := tx + {(batch, i)};
        }
        todo := todo - {i};
      }
      pairs := tx;
      return Ok(());
    }
  }

  // ---- Constraints of a running batch --------------------------------------------------------------------

  /** No constraint that is new to the batch matches a committed entry, or fails. Constraints that go, or that
      change places, are not looked at. */
  ghost predicate EditAllowed(criteria: map<(InstanceId, string), bool>, recorded: seq<Constraint>, wanted: seq<Constraint>,
                              instances: set<InstanceId>, queue: map<InstanceId, Entry>) {
    forall c, i | c in wanted && c !in recorded && i in instances ::
      MayMatch(criteria, c, queue, i)
  }

  predicate MayMatch(criteria: map<(InstanceId, string), bool>, c: Constraint, queue: map<InstanceId, Entry>, i: InstanceId) {
    (i, c.expr) in criteria && !(criteria[(i, c.expr)] && i in queue && queue[i].IsCommitted())
  }

  /** An edit is allowed if each constraint that is new has a verdict on every instance of the batch, and matches none
      whose entry is in its final import or past it. */
  lemma EditAllowedMeans(criteria: map<(InstanceId, string), bool>, recorded: seq<Constraint>, wanted: seq<Constraint>,
                         instances: set<InstanceId>, queue: map<InstanceId, Entry>)
    ensures EditAllowed(criteria, recorded, wanted, instances, queue) <==>
              forall c, i | c in wanted && c !in recorded && i in instances ::
                && (i, c.expr) in criteria
                && (criteria[(i, c.expr)] && i in queue ==>
                      match queue[i].status
                      case FinalImport | PostImport | WorkerDone | WaitingImport => false
                      case Idle | Conflict => queue[i].stage != Complete
                      case _ => true)
  {
  }

  /** The recorded constraints followed by the new ones, if anything changed. */
  method ConstraintsToCheck(recorded: seq<Constraint>, wanted: seq<Constraint>) returns (cs: seq<Constraint>)
    ensures recorded == wanted ==> cs == []
    ensures recorded != wanted ==> recorded <= cs && forall c :: c in cs[|recorded|..] <==> c in wanted && c !in recorded
  {
    if recorded == wanted {
      return [];
    }
    var added := [];
    for j := 0 to |wanted|
      invariant forall c :: c in added <==> c in wanted[..j] && c !in recorded
    {
      if wanted[j] !in recorded + added {
        added := added + [wanted[j]];
      }
    }
    assert wanted[..|wanted|] == wanted;
    cs := recorded + added;
    assert cs[|recorded|..] == added;
  }

  method CheckConstraints(criteria: map<(InstanceId, string), bool>, recorded: seq<Constraint>, wanted: seq<Constraint>,
                          instances: set<InstanceId>, queue: map<InstanceId, Entry>) returns (reply: Reply<()>)
    ensures reply.Ok? <==> EditAllowed(criteria, recorded, wanted, instances, queue)
  {
    var cs := ConstraintsToCheck(recorded, wanted);
    for k := 0 to |cs|
      invariant forall j, i | |recorded| <= j < k && i in instances :: MayMatch(criteria, cs[j], queue, i)
    {
      var c := cs[k];
      // A constraint that is unchanged at its place need not be checked.
      if !(k < |recorded| && recorded[k] == c) {
        assert c in cs[|recorded|..];
        var todo := instances;
        while todo != {}
          invariant todo <= instances && forall i | i in instances - todo :: MayMatch(criteria, c, queue, i)
          decreases todo
        {
          var i :| i in todo;
          if (i, c.expr) !in criteria {
            return Err(Internal);
          }
          if criteria[(i, c.expr)] && i in queue && queue[i].IsCommitted() {
            return Err(NotPermitted);
          }
          todo := todo - {i};
        }
      }
    }
    forall c, i | c in wanted && c !in recorded && i in instances
      ensures MayMatch(criteria, c, queue, i)
    {
      assert c in cs[|recorded|..];
      var j :| |recorded| <= j < |cs| && cs[j] == c;
    }
    return Ok(());
  }

  /** Removing and reordering constraints is never refused, whatever they match. */
  lemma RemovalIsNeverChecked(criteria: map<(InstanceId, string), bool>, recorded: seq<Constraint>, wanted: seq<Constraint>,
                              instances: set<InstanceId>, queue: map<InstanceId, Entry>)
    requires forall c | c in wanted :: c in recorded
    ensures EditAllowed(criteria, recorded, wanted, instances, queue)
  {
  }

  /** The expressions of the constraints that an edit adds. */
  function AddedExprs(recorded: seq<Constraint>, wanted: seq<Constraint>): set<string> {
    set c | c in wanted && c !in recorded :: c.expr
  }

  /** Verdicts that make exactly these expressions match the instance. */
  function Verdicts(all: set<string>, matching: set<string>, i: InstanceId): map<(InstanceId, string), bool> {
    map p | p in (set x | x in all :: (i, x)) :: p.1 in matching
  }

  const COMMITTED: Entry := Entry([], [], [], FinalImport, StatusText(FinalImport), Final, Running, ZERO_TIME, None)

  /** The rule as it is documented: no constraint that an edit adds or removes matches a committed entry. */
  ghost predicate DocumentedRule(criteria: map<(InstanceId, string), bool>, recorded: seq<Constraint>, wanted: seq<Constraint>,
                                 instances: set<InstanceId>, queue: map<InstanceId, Entry>) {
    && EditAllowed(criteria, recorded, wanted, instances, queue)
    && EditAllowed(criteria, wanted, recorded, instances, queue)
  }

  /** An edit that is allowed always meets the documented rule, if and only if every removed constraint is
      replaced by a new one with the same expression. */
  lemma DocumentedRuleIsMet(recorded: seq<Constraint>, wanted: seq<Constraint>)
    ensures (forall criteria, instances, queue: map<InstanceId, Entry> | EditAllowed(criteria, recorded, wanted, instances, queue) ::
               DocumentedRule(criteria, recorded, wanted, instances, queue)) <==>
            forall c | c in recorded && c !in wanted :: c.expr in AddedExprs(recorded, wanted)
  {
    if forall c | c in recorded && c !in wanted :: c.expr in AddedExprs(recorded, wanted) {
      forall criteria, instances, queue: map<InstanceId, Entry> | EditAllowed(criteria, recorded, wanted, instances, queue)
        ensures DocumentedRule(criteria, recorded, wanted, instances, queue)
      {
        forall c, i | c in recorded && c !in wanted && i in instances
          ensures MayMatch(criteria, c, queue, i)
        {
          var d :| d in wanted && d !in recorded && d.expr == c.expr;
          assert MayMatch(criteria, d, queue, i);
        }
      }
    } else {
      var c :| c in recorded && c !in wanted && c.expr !in AddedExprs(recorded, wanted);
      var criteria := Verdicts((set d | d in recorded + wanted :: d.expr), {c.expr}, 0);
      var queue := map[0 := COMMITTED];
      assert EditAllowed(criteria, recorded, wanted, {0}, queue);
      assert c in recorded + wanted;
      assert !MayMatch(criteria, c, queue, 0);
    }
  }

  /** What an edit keeps of the recorded constraints, in the new order. */
  function Kept(wanted: seq<Constraint>, recorded: seq<Constraint>): seq<Constraint> {
    if wanted == [] then []
    else Kept(wanted[..|wanted| - 1], recorded) + if wanted[|wanted| - 1] in recorded then [wanted[|wanted| - 1]] else []
  }

  /** For a committed entry, an allowed edit adds nothing: only the kept constraints can be selected. */
  lemma {:induction false} SelectionIsAmongKept(criteria: map<(InstanceId, string), bool>, recorded: seq<Constraint>, wanted: seq<Constraint>,
                                                instances: set<InstanceId>, queue: map<InstanceId, Entry>, i: InstanceId)
    requires EditAllowed(criteria, recorded, wanted, instances, queue)
    requires i in instances && i in queue && queue[i].IsCommitted()
    ensures Select(criteria, wanted, i) == Select(criteria, Kept(wanted, recorded), i)
  {
    if wanted != [] {
      var last := |wanted| - 1;
      var before := wanted[..last];
      assert forall c | c in before :: c in wanted;
      SelectionIsAmongKept(criteria, recorded, before, instances, queue, i);
      assert wanted[last] in wanted;
      if wanted[last] in recorded {
        assert Kept(wanted, recorded)[..|Kept(wanted, recorded)| - 1] == Kept(before, recorded);
      } else {
        assert Kept(wanted, recorded) == Kept(before, recorded);
        assert MayMatch(criteria, wanted[last], queue, i);
      }
    }
  }

  // ---- Exactly which edits keep the selection of committed entries ------------------------------------------

  /** The constraints that can be selected when those with an expression in `skip` match nothing: of several with
      one expression only the last. */
  function Relevant(cs: seq<Constraint>, skip: set<string>): seq<Constraint> {
    if cs == [] then []
    else
      var last, before := cs[|cs| - 1], cs[..|cs| - 1];
      if last.expr in skip then Relevant(before, skip) else Relevant(before, skip + {last.expr}) + [last]
  }

  /** Apart from the added constraints and those they replace, the same constraints can be selected, in the same
      order. Raising, lowering or lifting the limit of a constraint is such an edit, and so is adding one. */
  predicate KeepsSelections(recorded: seq<Constraint>, wanted: seq<Constraint>) {
    Relevant(recorded, AddedExprs(recorded, wanted)) == Relevant(wanted, AddedExprs(recorded, wanted))
  }

  lemma {:induction false} SelectRelevant(criteria: map<(InstanceId, string), bool>, cs: seq<Constraint>, skip: set<string>, i: InstanceId)
    requires forall x | x in skip :: (i, x) in criteria && !criteria[(i, x)]
    ensures Select(criteria, cs, i) == Select(criteria, Relevant(cs, skip), i)
  {
    if cs != [] {
      var last, before := cs[|cs| - 1], cs[..|cs| - 1];
      if last.expr in skip {
        SelectRelevant(criteria, before, skip, i);
      } else {
        var r := Relevant(before, skip + {last.expr});
        assert (r + [last])[..|r|] == r;
        if (i, last.expr) in criteria && !criteria[(i, last.expr)] {
          SelectRelevant(criteria, before, skip + {last.expr}, i);
        }
      }
    }
  }

  function Exprs(cs: seq<Constraint>): set<string> {
    set c | c in cs :: c.expr
  }

  predicate DistinctExprs(cs: seq<Constraint>) {
    forall j, k | 0 <= j < k < |cs| :: cs[j].expr != cs[k].expr
  }

  /** What can be selected has different expressions, none of them skipped. */
  lemma {:induction false} RelevantIsDistinct(cs: seq<Constraint>, skip: set<string>)
    ensures Exprs(Relevant(cs, skip)) <= Exprs(cs) - skip && DistinctExprs(Relevant(cs, skip))
  {
    if cs != [] {
      var last, before := cs[|cs| - 1], cs[..|cs| - 1];
      RelevantIsDistinct(before, skip);
      RelevantIsDistinct(before, skip + {last.expr});
      assert forall c | c in before :: c in cs;
      if last.expr !in skip {
        var r := Relevant(before, skip + {last.expr});
        assert forall c | c in r :: c.expr in Exprs(r);
      }
    }
  }

  lemma SelectedLast(before: seq<Constraint>, last: Constraint, all: set<string>, matching: set<string>, i: InstanceId)
    requires last.expr in all
    ensures Select(Verdicts(all, matching, i), before + [last], i) ==
            if last.expr in matching then Some(Some(last)) else Select(Verdicts(all, matching, i), before, i)
  {
    assert (before + [last])[..|before|] == before;
  }

  lemma WithoutLast(cs: seq<Constraint>) returns (before: seq<Constraint>, last: Constraint)
    requires cs != [] && DistinctExprs(cs)
    ensures cs == before + [last] && |before| < |cs|
    ensures DistinctExprs(before) && Exprs(cs) == Exprs(before) + {last.expr} && last.expr !in Exprs(before)
  {
    before, last := cs[..|cs| - 1], cs[|cs| - 1];
    assert cs == before + [last];
  }

  /** Two lists of constraints with different expressions select differently for some verdicts. */
  lemma {:induction false} Distinguish(a: seq<Constraint>, b: seq<Constraint>, all: set<string>, i: InstanceId) returns (matching: set<string>)
    requires a != b && DistinctExprs(a) && DistinctExprs(b) && Exprs(a) + Exprs(b) <= all
    ensures matching <= Exprs(a) + Exprs(b)
    ensures Select(Verdicts(all, matching, i), a, i) != Select(Verdicts(all, matching, i), b, i)
    decreases |a|
  {
    hide Verdicts, DistinctExprs, Exprs;
    if a == [] {
      var b', y := WithoutLast(b);
      matching := {y.expr};
      SelectedLast(b', y, all, matching, i);
    } else if b == [] {
      var a', x := WithoutLast(a);
      matching := {x.expr};
      SelectedLast(a', x, all, matching, i);
    } else {
      var a', x := WithoutLast(a);
      var b', y := WithoutLast(b);
      if x != y {
        matching := {x.expr, y.expr};
      } else {
        matching := Distinguish(a', b', all, i);
      }
      SelectedLast(a', x, all, matching, i);
      SelectedLast(b', y, all, matching, i);
    }
  }

  /** An allowed edit leaves the selected constraint of every committed entry what it was, whatever the entries
      and the verdicts, if and only if it keeps selections. */
  lemma SelectionIsKept(recorded: seq<Constraint>, wanted: seq<Constraint>)
    ensures KeepsSelections(recorded, wanted) <==>
              forall criteria, instances, queue: map<InstanceId, Entry>, i
                | EditAllowed(criteria, recorded, wanted, instances, queue) && i in instances && i in queue && queue[i].IsCommitted() ::
                Select(criteria, wanted, i) == Select(criteria, recorded, i)
  {
    if KeepsSelections(recorded, wanted) {
      forall criteria, instances, queue: map<InstanceId, Entry>, i
        | EditAllowed(criteria, recorded, wanted, instances, queue) && i in instances && i in queue && queue[i].IsCommitted()
        ensures Select(criteria, wanted, i) == Select(criteria, recorded, i)
      {
        AllowedEditKeeps(criteria, recorded, wanted, instances, queue, i);
      }
    } else {
      var criteria, queue := SelectionIsLost(recorded, wanted);
      assert EditAllowed(criteria, recorded, wanted, {0}, queue) && 0 in {0} && 0 in queue && queue[0].IsCommitted();
    }
  }

  lemma AllowedEditKeeps(criteria: map<(InstanceId, string), bool>, recorded: seq<Constraint>, wanted: seq<Constraint>,
                         instances: set<InstanceId>, queue: map<InstanceId, Entry>, i: InstanceId)
    requires KeepsSelections(recorded, wanted) && EditAllowed(criteria, recorded, wanted, instances, queue)
    requires i in instances && i in queue && queue[i].IsCommitted()
    ensures Select(criteria, wanted, i) == Select(criteria, recorded, i)
  {
    var skip := AddedExprs(recorded, wanted);
    forall x | x in skip
      ensures (i, x) in criteria && !criteria[(i, x)]
    {
      var c :| c in wanted && c !in recorded && c.expr == x;
      assert MayMatch(criteria, c, queue, i);
    }
    SelectRelevant(criteria, wanted, skip, i);
    SelectRelevant(criteria, recorded, skip, i);
  }

  lemma SelectionIsLost(recorded: seq<Constraint>, wanted: seq<Constraint>)
    returns (criteria: map<(InstanceId, string), bool>, queue: map<InstanceId, Entry>)
    requires !KeepsSelections(recorded, wanted)
    ensures EditAllowed(criteria, recorded, wanted, {0}, queue) && 0 in queue && queue[0].IsCommitted()
    ensures Select(criteria, wanted, 0) != Select(criteria, recorded, 0)
  {
    var skip := AddedExprs(recorded, wanted);
    var a, b := Relevant(wanted, skip), Relevant(recorded, skip);
    RelevantIsDistinct(wanted, skip);
    RelevantIsDistinct(recorded, skip);
    var all := Exprs(recorded) + Exprs(wanted);
    var matching := Distinguish(a, b, all, 0);
    criteria := Verdicts(all, matching, 0);
    queue := map[0 := COMMITTED];
    forall x | x in skip
      ensures (0, x) in criteria && !criteria[(0, x)]
    {
      assert x !in matching;
    }
    SelectRelevant(criteria, wanted, skip, 0);
    SelectRelevant(criteria, recorded, skip, 0);
    hide Select, Relevant;
  }

  /** Adding constraints in between, or anywhere, keeps selections: what is kept of the recorded ones is all of
      them, in order. */
  lemma {:induction false} RelevantOfKept(wanted: seq<Constraint>, recorded: seq<Constraint>, skip: set<string>)
    requires forall c | c in wanted && c !in recorded :: c.expr in skip
    ensures Relevant(wanted, skip) == Relevant(Kept(wanted, recorded), skip)
  {
    if wanted != [] {
      var last, before := wanted[|wanted| - 1], wanted[..|wanted| - 1];
      assert forall c | c in before :: c in wanted;
      if last in recorded {
        assert (Kept(before, recorded) + [last])[..|Kept(before, recorded)|] == Kept(before, recorded);
        RelevantOfKept(before, recorded, if last.expr in skip then skip else skip + {last.expr});
      } else {
        assert last in wanted;
        assert Kept(wanted, recorded) == Kept(before, recorded);
        RelevantOfKept(before, recorded, skip);
      }
    }
  }

  lemma AdditionsKeepSelections(recorded: seq<Constraint>, wanted: seq<Constraint>)
    requires Kept(wanted, recorded) == recorded
    ensures KeepsSelections(recorded, wanted)
  {
    RelevantOfKept(wanted, recorded, AddedExprs(recorded, wanted));
  }

  /** So does replacing constraints by others with the same expressions, say to change a limit, as long as the
      surviving ones keep their order. */
  lemma ReplacementsKeepSelections(recorded: seq<Constraint>, wanted: seq<Constraint>)
    requires forall c | c in recorded && c !in wanted :: c.expr in AddedExprs(recorded, wanted)
    requires Kept(wanted, recorded) == Kept(recorded, wanted)
    ensures KeepsSelections(recorded, wanted)
  {
    RelevantOfKept(wanted, recorded, AddedExprs(recorded, wanted));
    RelevantOfKept(recorded, wanted, AddedExprs(recorded, wanted));
  }

  // ---- What edits do to the limits -------------------------------------------------------------------------

  function WithConstraints(s: State, name: string, wanted: seq<Constraint>): State
    requires name in s.batches
  {
    s.(batches := s.batches[name := s.batches[name].(constraints := wanted)])
  }

  /** The queue entries of a batch. */
  function QueueOf(s: State, name: string): map<InstanceId, Entry> {
    map i | i in s.entries && s.entries[i].batch == name :: s.entries[i]
  }

  /** An allowed edit that keeps selections does not break the limit of any constraint, new or old, even while
      entries of the batch perform their final import. */
  lemma EditKeepsFinalBound(s: State, name: string, wanted: seq<Constraint>, instances: set<InstanceId>)
    requires name in s.batches && FinalImportsBounded(s) && QueueOf(s, name).Keys <= instances
    requires EditAllowed(s.setup.criteria, s.batches[name].constraints, wanted, instances, QueueOf(s, name))
    requires KeepsSelections(s.batches[name].constraints, wanted)
    ensures FinalImportsBounded(WithConstraints(s, name, wanted))
  {
    var s', recorded, criteria := WithConstraints(s, name, wanted), s.batches[name].constraints, s.setup.criteria;
    forall b, c | b in s'.batches && c in s'.batches[b].constraints && c.max > 0
      ensures Count(s'.entries, FinalUnder(b, s'.batches[b].constraints, criteria, c)) <= c.max
    {
      if b == name {
        FinalsUnderEdit(s, name, wanted, instances, c);
        SubsetIsSmaller(Picked(s.entries, FinalUnder(b, wanted, criteria, c)), Picked(s.entries, FinalUnder(b, recorded, criteria, c)));
        if c !in recorded {
          assert Picked(s.entries, FinalUnder(b, recorded, criteria, c)) == {};
        }
      }
    }
  }

  lemma FinalsUnderEdit(s: State, name: string, wanted: seq<Constraint>, instances: set<InstanceId>, c: Constraint)
    requires name in s.batches && QueueOf(s, name).Keys <= instances
    requires EditAllowed(s.setup.criteria, s.batches[name].constraints, wanted, instances, QueueOf(s, name))
    requires KeepsSelections(s.batches[name].constraints, wanted)
    ensures Picked(s.entries, FinalUnder(name, wanted, s.setup.criteria, c))
         <= Picked(s.entries, FinalUnder(name, s.batches[name].constraints, s.setup.criteria, c))
  {
    hide KeepsSelections, EditAllowed;
    forall i | i in Picked(s.entries, FinalUnder(name, wanted, s.setup.criteria, c))
      ensures i in Picked(s.entries, FinalUnder(name, s.batches[name].constraints, s.setup.criteria, c))
    {
      assert QueueOf(s, name)[i].IsCommitted();
      AllowedEditKeeps(s.setup.criteria, s.batches[name].constraints, wanted, instances, QueueOf(s, name), i);
    }
  }

  /** In particular, adding constraints breaks no limit. */
  lemma AdditionsKeepFinalBound(s: State, name: string, wanted: seq<Constraint>, instances: set<InstanceId>)
    requires name in s.batches && FinalImportsBounded(s) && QueueOf(s, name).Keys <= instances
    requires EditAllowed(s.setup.criteria, s.batches[name].constraints, wanted, instances, QueueOf(s, name))
    requires Kept(wanted, s.batches[name].constraints) == s.batches[name].constraints
    ensures FinalImportsBounded(WithConstraints(s, name, wanted))
  {
    AdditionsKeepSelections(s.batches[name].constraints, wanted);
    EditKeepsFinalBound(s, name, wanted, instances);
  }

  /** Of two constraints that match, the later one is selected; without it, the other one. */
  lemma SelectsLater(criteria: map<(InstanceId, string), bool>, first: Constraint, later: Constraint, i: InstanceId)
    requires (i, first.expr) in criteria && criteria[(i, first.expr)] && (i, later.expr) in criteria && criteria[(i, later.expr)]
    ensures Select(criteria, [first, later], i) == Some(Some(later))
    ensures Select(criteria, [first], i) == Some(Some(first))
  {
  }

  /** The database has the rows that its entries refer to. */
  ghost predicate Referenced(s: State) {
    forall i | i in s.entries ::
      && i in s.instances && s.entries[i].batch in s.batches
      && s.entries[i].source in s.setup.sources && s.entries[i].target in s.setup.targets
  }

  /** An allowed removal can break a limit: two final imports run under a constraint for two; once it is removed
      both fall under the one for a single import. */
  lemma RemovalBreaksFinalBound() returns (s: State, name: string, wanted: seq<Constraint>)
    ensures Inv(s) && Referenced(s) && name in s.batches && FinalImportsBounded(s)
    ensures EditAllowed(s.setup.criteria, s.batches[name].constraints, wanted, s.entries.Keys, QueueOf(s, name))
    ensures !FinalImportsBounded(WithConstraints(s, name, wanted))
  {
    hide Select, EditAllowed, QueueOf;
    var x, y := ['x'], ['y'];
    name := ['b'];
    var single, double := Constraint(x, [], x, 1, 0), Constraint(y, [], y, 2, 0);
    var e := Entry(name, x, y, FinalImport, StatusText(FinalImport), Final, Running, 1, None);
    var criteria := map[(0, x) := true, (0, y) := true, (1, x) := true, (1, y) := true];
    var batch := Batch(Started, [single, double], 0, 2, 1, false);
    var devices := InstanceSync.Devices([], false, [], []);
    s := State(Setup(map[x := 0], map[y := 0], criteria), map[0 := e, 1 := e], map[], map[name := batch],
               map[0 := devices, 1 := devices], map[x := 2], map[y := 2], map[]);
    wanted := [single];
    SelectsLater(criteria, single, double, 0);
    SelectsLater(criteria, single, double, 1);
    assert Picked(s.entries, FinalUnder(name, [single, double], criteria, single)) == {};
    assert Picked(s.entries, FinalUnder(name, [single, double], criteria, double)) == {0, 1};
    assert Picked(s.entries, FinalUnder(name, [single], criteria, single)) == {0, 1};
    RemovalIsNeverChecked(criteria, [single, double], wanted, s.entries.Keys, QueueOf(s, name));
    hide Picked;
    assert single in WithConstraints(s, name, wanted).batches[name].constraints;
    assert Count(s.entries, FinalUnder(name, [single], criteria, single)) > single.max;
  }
}
