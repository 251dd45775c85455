/** The members of a membership query, told apart from the loop that collects them. */
module Membership {
  import opened Text
  import opened PyValues
  import opened CommaLists
  import opened Coercion

  /** `m` is one of the members of a membership query: an item of the list that it is or spells, a
      trimmed stretch between its commas, or the query itself. */
  ghost predicate WantsMember(py: Python, v: Value, m: Value) {
    match v
    case Null => false
    case List(items) => m in items
    case Str(s) =>
      if py.eval(s).Some? && py.eval(s).value.List? then m in py.eval(s).value.items
      else exists i, j | 0 <= i <= j <= |s| :: IsFilled(s, i, j) && m == Str(Strip(s[i..j]))
    case _ => m == v
  }

  lemma RawMembersAre(py: Python, v: Value, m: Value)
    requires !v.Null?
    ensures m in RawMembers(py, v) <==> WantsMember(py, v, m)
  {
    hide Strip, NonEmptyStripped, SplitOn, IsFilled;
    if v.Str? && !(py.eval(v.s).Some? && py.eval(v.s).value.List?) {
      var s := v.s;
      var places := MembersAreSegments(s);
      var members := NonEmptyStripped(SplitOn(s, ','));
      if m in members {
        var k :| 0 <= k < |members| && members[k] == m;
        assert MemberAt(s, places[k], m);
        SegmentFits(s, places[k].0, places[k].1);
      }
      if i, j :| 0 <= i <= j <= |s| && IsFilled(s, i, j) && m == Str(Strip(s[i..j])) {
        var k :| 0 <= k < |places| && places[k] == (i, j);
        assert MemberAt(s, places[k], members[k]);
      }
    }
  }

  lemma SegmentFits(s: string, i: nat, j: nat)
    requires IsFilled(s, i, j)
    ensures i <= j <= |s|
  {
  }

  lemma MembersExist(py: Python, v: Value)
    ensures CsvOrList(py, v).Ok? <==> exists m :: WantsMember(py, v, m)
  {
    hide RawMembers, WantsMember;
    if !v.Null? {
      if RawMembers(py, v) != [] {
        RawMembersAre(py, v, RawMembers(py, v)[0]);
      }
      if m :| WantsMember(py, v, m) {
        RawMembersAre(py, v, m);
      }
    } else {
      NullWantsNothing(py);
    }
  }

  lemma NullWantsNothing(py: Python)
    ensures forall m :: !WantsMember(py, Null, m)
  {
  }
}
