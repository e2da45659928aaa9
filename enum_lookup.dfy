/**
  The value lookup behind Python's `Enum(value)` call. Python finds the member
  through a value-to-member table that keeps, for each value, the first member
  declared with it; the scan in declaration order below returns that same
  member. When no member carries the value the call raises `ValueError`,
  which is `None` here.
*/
module EnumLookup {
  import opened Wrappers

  /** No two members carry the same value (the enumeration has no aliases). */
  ghost predicate DistinctValues<E>(members: seq<E>, value: E -> string)
  {
    forall i, j :: 0 <= i < |members| && 0 <= j < |members| && i != j ==>
      value(members[i]) != value(members[j])
  }

  /** The member whose value is `tag`, or `None` when no member has it. */
  function FindByValue<E>(members: seq<E>, value: E -> string, tag: string): (r: Option<E>)
    ensures r.None? <==> forall i :: 0 <= i < |members| ==> value(members[i]) != tag
    ensures r.Some? ==> r.value in members && value(r.value) == tag
  {
    if |members| == 0 then None
    else if value(members[0]) == tag then Some(members[0])
    else FindByValue(members[1..], value, tag)
  }

  /**
    The lookup returns the FIRST member carrying the value, as Python's does.
    This records Python's rule for an enumeration that repeats a value (later
    members become aliases of the first); the enumerations of QuickCart repeat
    none, and for them `FindByValueOfMember` is the fact used.
  */
  lemma {:induction false} FindByValueFirst<E>(members: seq<E>, value: E -> string, i: nat)
    requires i < |members|
    requires forall j :: 0 <= j < i ==> value(members[j]) != value(members[i])
    ensures FindByValue(members, value, value(members[i])) == Some(members[i])
  {
    if i > 0 {
      assert value(members[0]) != value(members[i]);
      assert members[1..][i - 1] == members[i];
      FindByValueFirst(members[1..], value, i - 1);
    }
  }

  /** Without aliases, looking up the value of any member gives that member back. */
  lemma FindByValueOfMember<E>(members: seq<E>, value: E -> string, i: nat)
    requires i < |members|
    requires DistinctValues(members, value)
    ensures FindByValue(members, value, value(members[i])) == Some(members[i])
  {
  }
}
