/** The declared scope of a task and its limits, read from a policy pinned to a commit. */
module TaskPolicy {
  import opened Wrappers

  type Path = string

  datatype Scope = Scope(intended: set<Path>, excluded: set<Path>)

  datatype Reason = Excluded | NotIntended

  ghost predicate InScope(scope: Scope, paths: set<Path>) {
    paths <= scope.intended && paths !! scope.excluded
  }

  /** Every offending path is listed, with the reason that counts first, and none twice. */
  method ScopeViolations(scope: Scope, paths: set<Path>) returns (violations: map<Path, Reason>)
    ensures violations == map[] <==> InScope(scope, paths)
    ensures forall p :: p in violations <==> p in paths && (p in scope.excluded || p !in scope.intended)
    ensures forall p :: p in violations ==> (violations[p].Excluded? <==> p in scope.excluded)
  {
    violations := map[];
    var pending := paths;
    while pending != {}
      invariant pending <= paths
      invariant forall p :: p in violations <==> p in paths - pending && (p in scope.excluded || p !in scope.intended)
      invariant forall p :: p in violations ==> (violations[p].Excluded? <==> p in scope.excluded)
      decreases pending
    {
      var p :| p in pending;
      if p in scope.excluded {
        violations := violations[p := Excluded];
      } else if p !in scope.intended {
        violations := violations[p := NotIntended];
      }
      pending := pending - {p};
    }
    assert violations == map[] <==> forall p :: p in paths ==> p !in violations;
  }

  // ----- the pinned policy -----

  datatype Policy = Policy(version: string, intended: seq<Path>, excluded: seq<Path>)

  /** The digest is taken to be collision-free, so it is the digested policy itself. */
  datatype Provenance = Provenance(policyPath: Path, policyDigest: Policy, baseline: string)

  const VERSION := "1.0.0"

  function Parts(s: string): (parts: seq<string>)
    ensures |parts| > 0
    ensures forall part :: part in parts ==> '/' !in part
  {
    if s == "" then [""]
    else if s[0] == '/' then [""] + Parts(s[1..])
    else
      var rest := Parts(s[1..]);
      [[s[0]] + rest[0]] + rest[1..]
  }

  predicate LiteralPath(s: Path) {
    && s != "" && s[0] != '/'
    && (forall c :: c in s ==> c >= ' ' && c as int != 127 && c !in "\\:*?[]{}")
    && (forall part :: part in Parts(s) ==> part != "" && part != "." && part != "..")
  }

  /**
   Of the rules for a policy path the ones about single characters and about components would do: an empty or an
   absolute path has an empty component.
  */
  lemma LiteralPathMeans(s: Path)
    ensures LiteralPath(s) <==>
      && (forall i :: 0 <= i < |s| ==>
            ' ' <= s[i] && s[i] as int != 127 && s[i] !in "\\:*?[]{}")
      && "" !in Parts(s) && "." !in Parts(s) && ".." !in Parts(s)
  {
    assert s == "" || s[0] == '/' ==> Parts(s)[0] == "";
    assert forall i :: 0 <= i < |s| ==> s[i] in s;
  }

  ghost predicate NoDuplicates(paths: seq<Path>) {
    forall i, j :: 0 <= i < j < |paths| ==> paths[i] != paths[j]
  }

  function Elements(paths: seq<Path>): set<Path> {
    set p | p in paths
  }

  /** Duplicates show in the size of the element set, which is how the policy check finds them. */
  lemma {:induction false} SizeShowsDuplicates(paths: seq<Path>)
    ensures |Elements(paths)| <= |paths|
    ensures |Elements(paths)| == |paths| <==> NoDuplicates(paths)
  {
    if paths == [] {
      assert Elements(paths) == {};
    } else {
      var front, last := paths[..|paths| - 1], paths[|paths| - 1];
      SizeShowsDuplicates(front);
      assert paths == front + [last];
      if last in front {
        assert Elements(paths) == Elements(front);
        var i :| 0 <= i < |front| && front[i] == last;
        assert paths[i] == paths[|paths| - 1];
      } else {
        assert Elements(paths) == Elements(front) + {last};
      }
      if NoDuplicates(front) && last !in front {
        assert NoDuplicates(paths);
      }
      if NoDuplicates(paths) {
        assert forall i, j :: 0 <= i < j < |front| ==> front[i] == paths[i] && front[j] == paths[j];
      }
    }
  }

  predicate PathListsOk(p: Policy) {
    && (forall q :: q in p.intended ==> LiteralPath(q))
    && (forall q :: q in p.excluded ==> LiteralPath(q))
    && |Elements(p.intended)| == |p.intended| && |Elements(p.excluded)| == |p.excluded|
    && Elements(p.intended) !! Elements(p.excluded)
  }

  /** Both lists are free of duplicates, disjoint, and hold valid paths only. */
  lemma PathListsMean(p: Policy)
    ensures PathListsOk(p) <==>
      && NoDuplicates(p.intended) && NoDuplicates(p.excluded)
      && forall q :: q in p.intended || q in p.excluded ==> LiteralPath(q) && !(q in p.intended && q in p.excluded)
  {
    SizeShowsDuplicates(p.intended);
    SizeShowsDuplicates(p.excluded);
    assert forall q :: q in Elements(p.intended) <==> q in p.intended;
    assert forall q :: q in Elements(p.excluded) <==> q in p.excluded;
  }

  /**
   Loads the scope from the blob at the pinned commit.
  */
  method LoadTaskScope(head: string, committed: map<(string, Path), Policy>, prov: Provenance)
    returns (r: Option<Scope>)
    ensures r.Some? <==>
      && head == prov.baseline && (prov.baseline, prov.policyPath) in committed
      && committed[(prov.baseline, prov.policyPath)] == prov.policyDigest
      && prov.policyDigest.version == VERSION && |prov.policyDigest.intended| > 0 && PathListsOk(prov.policyDigest)
    ensures r.Some? ==>
      && r.value == Scope(Elements(prov.policyDigest.intended), Elements(prov.policyDigest.excluded))
      && forall paths: set<Path> :: InScope(r.value, paths) <==> paths <= r.value.intended
  {
    if head != prov.baseline {
      return None;
    }
    var key := (prov.baseline, prov.policyPath);
    if key !in committed {
      return None;
    }
    var policy := committed[key];
    if policy != prov.policyDigest || policy.version != VERSION || |policy.intended| == 0 || !PathListsOk(policy) {
      return None;
    }
    return Some(Scope(Elements(policy.intended), Elements(policy.excluded)));
  }

  // ----- limits -----

  datatype Requested = Missing | Flag | Whole(value: int) | Fraction(amount: real) | NonFinite

  /** One ceiling with the effective value it bounds; some values have to be whole numbers. */
  datatype Limit = Limit(ceiling: Option<int>, wholeOnly: bool, effective: Requested)

  predicate Within(l: Limit) {
    l.ceiling.Some? ==>
      match l.effective
      case Whole(v) => v <= l.ceiling.value
      case Fraction(v) => !l.wholeOnly && v <= l.ceiling.value as real
      case _ => false
  }

  method CheckLimits(limits: seq<Limit>) returns (ok: bool)
    ensures ok <==> forall l :: l in limits ==> Within(l)
  {
    for i := 0 to |limits|
      invariant forall j :: 0 <= j < i ==> Within(limits[j])
    {
      var l := limits[i];
      if l.ceiling.None? {
        continue;
      }
      match l.effective {
        case Whole(v) =>
          if v > l.ceiling.value {
            assert !Within(limits[i]);
            return false;
          }
        case Fraction(v) =>
          if l.wholeOnly || v > l.ceiling.value as real {
            assert !Within(limits[i]);
            return false;
          }
        case _ =>
          assert !Within(limits[i]);
          return false;
      }
    }
    return true;
  }
}
