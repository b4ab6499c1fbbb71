/** The member-expression map of a method: keyed by the expression's start location (as
    text), each entry keeps the expression text and end of the furthest end seen, by the
    non-lexicographic `>` of source locations, and the members used in it. */
module MemberExprs {
  import opened Symbols

  type Exprs = map<string, MemberExpr>

  /** `>` asserts that both ends lie in the same file. */
  predicate CanMerge(exprs: Exprs, e: MemberExpr, locBegin: string) {
    locBegin in exprs ==> e.locEnd.fileName == exprs[locBegin].locEnd.fileName
  }

  /** The merge shared by `UpdateMemberExpr` and `InsertMemberExpr`. A new location stores
      `e`. Otherwise the stored expression keeps its start and members, and its text and end
      are replaced by those of `e` exactly when `e` ends later by `>`. */
  function Merge(exprs: Exprs, e: MemberExpr, locBegin: string): (r: Exprs)
    requires CanMerge(exprs, e, locBegin)
    ensures r.Keys == exprs.Keys + {locBegin}
    ensures forall k | k in exprs && k != locBegin :: r[k] == exprs[k]
    ensures locBegin !in exprs ==> r[locBegin] == e
    ensures locBegin in exprs ==>
      var was, now := exprs[locBegin], r[locBegin];
      now.srcInfo == was.srcInfo && now.members == was.members
      && (Greater(e.locEnd, was.locEnd) ==> now.expr == e.expr && now.locEnd == e.locEnd)
      && (!Greater(e.locEnd, was.locEnd) ==> now == was)
  {
    if locBegin !in exprs then exprs[locBegin := e]
    else
      var was := exprs[locBegin];
      if Greater(e.locEnd, was.locEnd) then exprs[locBegin := was.(expr := e.expr, locEnd := e.locEnd)]
      else exprs
  }

  /** `UpdateMemberExpr` on a method record: the merge, and nothing else changes. */
  function UpdateMemberExpr(m: Symbol, e: MemberExpr, locBegin: string): (r: Symbol)
    requires m.kind.MethodKind? && CanMerge(m.kind.memberExprs, e, locBegin)
    ensures r.kind.MethodKind? && r.kind.memberExprs == Merge(m.kind.memberExprs, e, locBegin)
    ensures r.(kind := r.kind.(memberExprs := m.kind.memberExprs)) == m
  {
    m.(kind := m.kind.(memberExprs := Merge(m.kind.memberExprs, e, locBegin)))
  }

  /** `InsertMemberExpr` on a method record: the merge, then one member appended to the entry
      at `locBegin`; no other entry and nothing else of the record changes. */
  function InsertMemberExpr(m: Symbol, e: MemberExpr, member: Member, locBegin: string): (r: Symbol)
    requires m.kind.MethodKind? && CanMerge(m.kind.memberExprs, e, locBegin)
    ensures r.kind.MethodKind?
    ensures r.kind.memberExprs.Keys == m.kind.memberExprs.Keys + {locBegin}
    ensures forall k | k in m.kind.memberExprs && k != locBegin :: r.kind.memberExprs[k] == m.kind.memberExprs[k]
    ensures var merged := Merge(m.kind.memberExprs, e, locBegin)[locBegin];
      r.kind.memberExprs[locBegin] == merged.(members := merged.members + [member])
    ensures r.(kind := r.kind.(memberExprs := m.kind.memberExprs)) == m
  {
    var merged := Merge(m.kind.memberExprs, e, locBegin);
    var entry := merged[locBegin];
    m.(kind := m.kind.(memberExprs := merged[locBegin := entry.(members := entry.members + [member])]))
  }

  /** The member list of the entry grows by exactly one, at the end, and the entry's end never
      moves to a location that is before the old one by `<`. */
  lemma InsertAppendsOneMember(m: Symbol, e: MemberExpr, member: Member, locBegin: string)
    requires m.kind.MethodKind? && CanMerge(m.kind.memberExprs, e, locBegin)
    ensures var now := InsertMemberExpr(m, e, member, locBegin).kind.memberExprs[locBegin];
      var before := if locBegin in m.kind.memberExprs then m.kind.memberExprs[locBegin].members else e.members;
      now.members == before + [member] && now.members[|now.members| - 1] == member
    ensures locBegin in m.kind.memberExprs ==>
      var was, now := m.kind.memberExprs[locBegin], InsertMemberExpr(m, e, member, locBegin).kind.memberExprs[locBegin];
      was.locEnd.fileName == now.locEnd.fileName && (now.locEnd == was.locEnd || Less(was.locEnd, now.locEnd))
  {
  }

  /** Merging the same expression twice is merging it once: `>` is irreflexive. */
  lemma MergeIdempotent(exprs: Exprs, e: MemberExpr, locBegin: string)
    requires CanMerge(exprs, e, locBegin)
    ensures CanMerge(Merge(exprs, e, locBegin), e, locBegin)
    ensures Merge(Merge(exprs, e, locBegin), e, locBegin) == Merge(exprs, e, locBegin)
  {
    var once := Merge(exprs, e, locBegin);
    assert !Greater(e.locEnd, e.locEnd);
    assert once[locBegin].locEnd == e.locEnd || !Greater(e.locEnd, once[locBegin].locEnd);
  }

  /** Because `>` is not lexicographic, the kept end can move back to an earlier line. */
  lemma MergeCanKeepEarlierEnd()
    ensures exists exprs: Exprs, e: MemberExpr, l: string ::
      l in exprs && CanMerge(exprs, e, l) && LexBefore(Merge(exprs, e, l)[l].locEnd, exprs[l].locEnd)
  {
    var start := SourceInfo("f", 1, 1);
    var was := MemberExpr("a.b", start, SourceInfo("f", 2, 3), []);
    var e := MemberExpr("a", start, SourceInfo("f", 1, 9), []);
    var exprs := map["f:1:1" := was];
    assert Greater(e.locEnd, was.locEnd);
    assert LexBefore(Merge(exprs, e, "f:1:1")["f:1:1"].locEnd, exprs["f:1:1"].locEnd);
  }
}
