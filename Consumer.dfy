/**
 * The AST consumer: it records candidate declarations as top-level
 * declaration groups arrive, and once the translation unit is complete it
 * reports each candidate that no getter satisfies.
 */
module Consumer {
  import opened KeyPaths

  /** Taking one element out of `remaining` grows `o - remaining` by that element when it is in `o`. */
  lemma RemovalCount<T>(o: set<T>, remaining: set<T>, x: T)
    requires x in remaining
    ensures x in o ==> |o - (remaining - {x})| == |o - remaining| + 1
    ensures x !in o ==> |o - (remaining - {x})| == |o - remaining|
  {
    if x in o {
      assert o - (remaining - {x}) == (o - remaining) + {x};
    } else {
      assert o - (remaining - {x}) == o - remaining;
    }
  }

  /**
   * Each reported warning comes from a distinct orphaned candidate and is
   * that candidate's warning at its recorded anchor.
   */
  ghost predicate Reported(candidates: map<MethodDecl, int>, orphans: set<MethodDecl>,
                           diagnostics: seq<Diagnostic>, emitters: seq<MethodDecl>)
  {
    |diagnostics| == |emitters| &&
    (forall m :: m in orphans ==> m in candidates && |m.name| > |Prefix|) &&
    (forall i, j :: 0 <= i < j < |emitters| ==> emitters[i] != emitters[j]) &&
    (forall i :: 0 <= i < |emitters| ==>
      emitters[i] in orphans &&
      diagnostics[i] == OrphanWarning(emitters[i], candidates[emitters[i]]))
  }

  /** Appending one more orphan's warning keeps the report well formed. */
  lemma ReportedStep(candidates: map<MethodDecl, int>, orphans: set<MethodDecl>,
                     diagnostics: seq<Diagnostic>, emitters: seq<MethodDecl>,
                     m: MethodDecl, w: Diagnostic)
    requires Reported(candidates, orphans, diagnostics, emitters)
    requires m in orphans && m !in emitters && w == OrphanWarning(m, candidates[m])
    ensures Reported(candidates, orphans, diagnostics + [w], emitters + [m])
  {
  }

  ghost predicate Progress(candidates: map<MethodDecl, int>, orphans: set<MethodDecl>, remaining: set<MethodDecl>,
                           diagnostics: seq<Diagnostic>, emitters: seq<MethodDecl>)
  {
    |emitters| == |orphans - remaining| &&
    Reported(candidates, orphans, diagnostics, emitters) &&
    (forall i :: 0 <= i < |emitters| ==> emitters[i] !in remaining) &&
    (forall m :: m in orphans && m !in remaining ==> m in emitters)
  }

  lemma ProgressStep(candidates: map<MethodDecl, int>, orphans: set<MethodDecl>, remaining: set<MethodDecl>,
                     diagnostics: seq<Diagnostic>, emitters: seq<MethodDecl>, m: MethodDecl, outcome: Option<Diagnostic>)
    requires Progress(candidates, orphans, remaining, diagnostics, emitters)
    requires m in remaining
    requires outcome.Some? <==> m in orphans
    requires outcome.Some? ==> outcome.value == OrphanWarning(m, candidates[m])
    ensures outcome.Some? ==> Progress(candidates, orphans, remaining - {m}, diagnostics + [outcome.value], emitters + [m])
    ensures outcome.None? ==> Progress(candidates, orphans, remaining - {m}, diagnostics, emitters)
  {
    RemovalCount(orphans, remaining, m);
    if outcome.Some? {
      ReportedStep(candidates, orphans, diagnostics, emitters, m, outcome.value);
    }
  }

  /** When every orphan has reported, the warnings are exactly the orphans' warnings. */
  lemma ReportedCovers(candidates: map<MethodDecl, int>, orphans: set<MethodDecl>,
                       diagnostics: seq<Diagnostic>, emitters: seq<MethodDecl>)
    requires Reported(candidates, orphans, diagnostics, emitters)
    requires forall m :: m in orphans ==> m in emitters
    ensures forall m :: m in orphans ==> OrphanWarning(m, candidates[m]) in diagnostics
    ensures forall d :: d in diagnostics ==>
      exists m :: m in orphans && d == OrphanWarning(m, candidates[m])
  {
    forall m | m in orphans
      ensures OrphanWarning(m, candidates[m]) in diagnostics
    {
      var i :| 0 <= i < |emitters| && emitters[i] == m;
      assert diagnostics[i] == OrphanWarning(m, candidates[m]);
    }
    forall d | d in diagnostics
      ensures exists m :: m in orphans && d == OrphanWarning(m, candidates[m])
    {
      var i :| 0 <= i < |diagnostics| && diagnostics[i] == d;
      assert emitters[i] in orphans;
    }
  }

  class OrphanedKeyPathCheckingConsumer {
    /** Candidate method declarations, each with the anchor of its key. */
    var affectingSelectorToLocation: map<MethodDecl, int>

    /** Every recorded declaration passed the filter and carries its anchor. */
    ghost predicate Valid()
      reads this
    {
      WellRecorded(affectingSelectorToLocation)
    }

    constructor ()
      ensures Valid() && affectingSelectorToLocation == map[]
    {
      affectingSelectorToLocation := map[];
    }

    /**
     * Records the candidates of one declaration group; emits nothing and
     * always reports that handling may go on.
     */
    method HandleTopLevelDecl(group: seq<Decl>) returns (proceed: bool)
      requires Valid()
      modifies this
      ensures Valid()
      ensures proceed
      ensures affectingSelectorToLocation == old(affectingSelectorToLocation) + Collected(group)
    {
      ghost var before := affectingSelectorToLocation;
      for i := 0 to |group|
        invariant affectingSelectorToLocation == before + Collected(group[..i])
      {
        CollectedSnoc(group, i);
        RecordedByFilter(group[i]);
        MapUnionEmpty(before, Collected(group[..i]));
        if group[i].Method? {
          var md := group[i].decl;
          if md.numArgs > 0 {
            continue;
          }
          var name := md.name;
          if md.isClassMethod && |name| > |Prefix| {
            if name[..|Prefix|] == Prefix {
              MapUnionSingleton(before, Collected(group[..i]), md, Anchor(md));
              affectingSelectorToLocation := affectingSelectorToLocation[md := md.selectorStart + |Prefix|];
            }
          }
        }
      }
      assert group[..|group|] == group;
      CollectedWellRecorded(group);
      proceed := true;
    }

    /**
     * Resolves every recorded candidate against the getter table and
     * returns the warnings reported, one per orphaned candidate; `emitters`
     * names the candidate behind each warning.
     */
    method HandleTranslationUnit(getters: GetterTable)
      returns (diagnostics: seq<Diagnostic>, ghost emitters: seq<MethodDecl>)
      requires Valid()
      ensures |diagnostics| == |emitters| == |Orphans(getters, affectingSelectorToLocation)|
      ensures forall i, j :: 0 <= i < j < |emitters| ==> emitters[i] != emitters[j]
      ensures forall i :: 0 <= i < |emitters| ==>
        emitters[i] in Orphans(getters, affectingSelectorToLocation) &&
        diagnostics[i] == OrphanWarning(emitters[i], affectingSelectorToLocation[emitters[i]])
      ensures forall m :: m in Orphans(getters, affectingSelectorToLocation) ==>
        OrphanWarning(m, affectingSelectorToLocation[m]) in diagnostics
      ensures forall d :: d in diagnostics ==>
        exists m :: m in Orphans(getters, affectingSelectorToLocation) &&
          d == OrphanWarning(m, affectingSelectorToLocation[m])
    {
      ghost var orphans := Orphans(getters, affectingSelectorToLocation);
      var remaining := affectingSelectorToLocation.Keys;
      diagnostics, emitters := [], [];
      while remaining != {}
        invariant remaining <= affectingSelectorToLocation.Keys
        invariant Progress(affectingSelectorToLocation, orphans, remaining, diagnostics, emitters)
        decreases remaining
      {
        var md :| md in remaining;
        var outcome := Resolve(getters, md, affectingSelectorToLocation[md]);
        ghost var d0, e0 := diagnostics, emitters;
        if outcome.Some? {
          diagnostics := diagnostics + [outcome.value];
          emitters := emitters + [md];
        }
        ProgressStep(affectingSelectorToLocation, orphans, remaining, d0, e0, md, outcome);
        remaining := remaining - {md};
      }
      ReportedCovers(affectingSelectorToLocation, orphans, diagnostics, emitters);
    }
  }
}
