/**
 * Event names of the stopwatch and their synonym groups.
 *
 * The names are grouped: every name in a group addresses the same
 * subscriber list. "update" and "tick" form one group, "alarm" another.
 * `getSynonym(t)` answers the group of `t` (a copy), or the empty list when
 * no group holds `t`; `getSynonyms()` answers copies of all groups, in order.
 */
module Events {

  const UPDATE: string := "update"
  const TICK: string := "tick"
  const ALARM: string := "alarm"

  /** The synonym table, in declaration order. */
  const SYNONYM: seq<seq<string>> := [[UPDATE, TICK], [ALARM]]

  /** `getSynonyms()`: the groups in order (each one a fresh copy in the source). */
  function GetSynonyms(): (r: seq<seq<string>>)
    ensures |r| == |SYNONYM|
    ensures forall i :: 0 <= i < |r| ==> r[i] == SYNONYM[i]
  {
    SYNONYM
  }

  /** The first group of `groups` holding `t` (Array.prototype.find), or none. */
  function FindGroup(groups: seq<seq<string>>, t: string): (r: seq<string>)
    ensures r == [] || r in groups
    ensures r != [] ==> t in r
    ensures r == [] <==> !(exists g :: g in groups && t in g)
    ensures r != [] ==> exists i :: 0 <= i < |groups| && groups[i] == r && forall j :: 0 <= j < i ==> t !in groups[j]
  {
    if groups == [] then []
    else if t in groups[0] then groups[0]
    else
      var r := FindGroup(groups[1..], t);
      assert r != [] ==> exists i :: 0 <= i < |groups| && groups[i] == r && forall j :: 0 <= j < i ==> t !in groups[j] by {
        if r != [] {
          var i :| 0 <= i < |groups[1..]| && groups[1..][i] == r && forall j :: 0 <= j < i ==> t !in groups[1..][j];
          assert groups[i + 1] == r;
          assert forall j :: 0 < j < i + 1 ==> groups[j] == groups[1..][j - 1];
        }
      }
      r
  }

  /** `getSynonym(t)`. */
  function GetSynonym(t: string): (r: seq<string>)
    ensures r == [] <==> t != UPDATE && t != TICK && t != ALARM
    ensures r != [] ==> t in r && r in SYNONYM
  {
    assert SYNONYM[0] == [UPDATE, TICK] && SYNONYM[1] == [ALARM];
    assert t == UPDATE || t == TICK ==> t in SYNONYM[0];
    assert t == ALARM ==> t in SYNONYM[1];
    assert forall g :: g in SYNONYM && t in g ==> t == UPDATE || t == TICK || t == ALARM;
    FindGroup(SYNONYM, t)
  }

  /** No name belongs to two groups. */
  ghost predicate Disjoint(groups: seq<seq<string>>)
  {
    forall i, j, t :: 0 <= i < j < |groups| && t in groups[i] ==> t !in groups[j]
  }

  /**
   * The table `getSynonyms()` answers partitions the three event names: no
   * name is in two groups, no group is empty, and exactly update, tick and
   * alarm have a group.
   */
  lemma SynonymsPartitionNames(t: string)
    ensures Disjoint(GetSynonyms())
    ensures forall i :: 0 <= i < |GetSynonyms()| ==> GetSynonyms()[i] != []
    ensures (exists i :: 0 <= i < |GetSynonyms()| && t in GetSynonyms()[i]) <==> t == UPDATE || t == TICK || t == ALARM
  {
    var g := GetSynonyms();
    assert g[0] == [UPDATE, TICK] && g[1] == [ALARM];
    if t == UPDATE || t == TICK {
      assert t in g[0];
    } else if t == ALARM {
      assert t in g[1];
    }
  }

  /** In a table of disjoint groups, "is a synonym of" is symmetric. */
  lemma {:induction false} FindGroupSymmetric(groups: seq<seq<string>>, t: string, u: string)
    requires Disjoint(groups)
    ensures u in FindGroup(groups, t) <==> t in FindGroup(groups, u)
  {
    if groups != [] {
      if t in groups[0] || u in groups[0] {
        if t !in groups[0] {
          // u is in the first group, so t is in no group containing u
          forall k | 0 <= k < |groups[1..]|
            ensures u !in groups[1..][k]
          {
            assert groups[1..][k] == groups[k + 1];
          }
          FindGroupAvoids(groups[1..], t, u);
        } else if u !in groups[0] {
          forall k | 0 <= k < |groups[1..]|
            ensures t !in groups[1..][k]
          {
            assert groups[1..][k] == groups[k + 1];
          }
          FindGroupAvoids(groups[1..], u, t);
        }
      } else {
        assert Disjoint(groups[1..]) by {
          forall i, j, x | 0 <= i < j < |groups[1..]| && x in groups[1..][i]
            ensures x !in groups[1..][j]
          {
            assert groups[1..][i] == groups[i + 1] && groups[1..][j] == groups[j + 1];
          }
        }
        FindGroupSymmetric(groups[1..], t, u);
      }
    }
  }

  /** When no group holds `u`, the group found for `t` does not hold `u`. */
  lemma {:induction false} FindGroupAvoids(groups: seq<seq<string>>, t: string, u: string)
    requires forall k :: 0 <= k < |groups| ==> u !in groups[k]
    ensures u !in FindGroup(groups, t)
  {
    if groups != [] && t !in groups[0] {
      FindGroupAvoids(groups[1..], t, u);
    }
  }

  /**
   * "update" and "tick" are synonyms, "alarm" stands alone, and synonymy is
   * symmetric for every pair of names.
   */
  lemma SynonymTable(t: string, u: string)
    ensures GetSynonym(UPDATE) == [UPDATE, TICK] && GetSynonym(TICK) == [UPDATE, TICK]
    ensures GetSynonym(ALARM) == [ALARM]
    ensures u in GetSynonym(t) <==> t in GetSynonym(u)
  {
    assert Disjoint(SYNONYM);
    FindGroupSymmetric(SYNONYM, t, u);
  }
}
