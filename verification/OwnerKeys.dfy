/** The combined "team|component" pivot key. */
module OwnerKeys {
  import opened Values

  const Sep := '|'

  function OwnerKey(team: string, component: string): string {
    team + [Sep] + component
  }

  /** Cuts at the first separator; None when there is none. */
  function SplitOwnerKey(key: string): Option<(string, string)> {
    if key == [] then None
    else if key[0] == Sep then Some(([], key[1..]))
    else
      match SplitOwnerKey(key[1..])
      case None => None
      case Some((t, c)) => Some(([key[0]] + t, c))
  }

  /** Whatever a split yields joins back to the key, with no separator in the team. */
  lemma {:induction false} JoinSplit(key: string)
    ensures match SplitOwnerKey(key)
            case None => '|' !in key
            case Some((t, c)) => key == t + "|" + c == OwnerKey(t, c) && '|' !in t
  {
    if key != [] {
      if key[0] != Sep {
        JoinSplit(key[1..]);
        if SplitOwnerKey(key[1..]).Some? {
          var (t, c) := SplitOwnerKey(key[1..]).value;
          assert OwnerKey([key[0]] + t, c) == [key[0]] + OwnerKey(t, c);
        }
      } else {
        assert OwnerKey([], key[1..]) == key;
      }
    }
  }

  lemma {:induction false} SplitCleanTeam(team: string, component: string)
    requires Sep !in team
    ensures SplitOwnerKey(OwnerKey(team, component)) == Some((team, component))
  {
    var key := OwnerKey(team, component);
    if team == [] {
      assert key[1..] == component;
    } else {
      assert key[0] == team[0] && team[0] in team;
      assert key[1..] == OwnerKey(team[1..], component);
      assert [team[0]] + team[1..] == team;
      SplitCleanTeam(team[1..], component);
    }
  }

  /** The round trip holds exactly for team names without the separator. */
  lemma SplitJoin(team: string, component: string)
    ensures SplitOwnerKey(OwnerKey(team, component)) == Some((team, component)) <==> '|' !in team
  {
    if Sep !in team {
      SplitCleanTeam(team, component);
    } else {
      JoinSplit(OwnerKey(team, component));
    }
  }

  /** Different keys split differently. */
  lemma SplitInjective(k: string, l: string)
    requires SplitOwnerKey(k).Some? && SplitOwnerKey(k) == SplitOwnerKey(l)
    ensures k == l
  {
    JoinSplit(k);
    JoinSplit(l);
  }
}
