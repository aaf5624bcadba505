/** Per-user settings and the two commands that change them: `!autoclaim`
    (parse on/off) and `!autodelete` (validate a rarity, toggle it in a list). */
module Settings {
  import opened Outcome
  import opened Seqs
  import Text
  import Rarity

  /** `{"autoclaim": ..., "autodelete": [...]}`. */
  datatype UserSettings = UserSettings(autoclaim: bool, autodelete: seq<string>)

  /** What `user_settings` creates for a user it has not seen. */
  const DefaultSettings: UserSettings := UserSettings(false, [])

  /** What a toggle did, as `!autodelete` reports it. */
  datatype Action = Enabled | Disabled

  /** The names `!autodelete` accepts: the rarity table's tier names. */
  function ValidNames(): (names: seq<string>)
    ensures |names| == |Rarity.RarityTable|
    ensures forall i :: 0 <= i < |names| ==> names[i] == Rarity.RarityTable[i].name
  {
    Rarity.TierNames(Rarity.RarityTable)
  }

  /** An autodelete list as the command keeps it: each tier name at most once,
      and nothing else. */
  predicate WellFormedList(list: seq<string>)
  {
    NoDuplicates(list) && forall x :: x in list ==> x in ValidNames()
  }

  /** The `!autoclaim` argument, compared case-insensitively with on/off:
      `on` and `off` in any mix of cases, and nothing else, give a flag. */
  function ParseSwitch(arg: string): (r: Option<bool>)
    ensures r == Some(true) <==> |arg| == 2 && arg[0] in "oO" && arg[1] in "nN"
    ensures r == Some(false) <==> |arg| == 3 && arg[0] in "oO" && arg[1] in "fF" && arg[2] in "fF"
  {
    var a := Text.Lower(arg);
    if a == "on" then Some(true) else if a == "off" then Some(false) else None
  }

  /** `list.index(x)`: the position of the first occurrence of `x`. */
  function IndexOf(list: seq<string>, x: string): (i: nat)
    requires x in list
    ensures i < |list| && list[i] == x && x !in list[..i]
  {
    if list[0] == x then 0
    else
      assert x in list[1..];
      assert list[..IndexOf(list[1..], x) + 1] == [list[0]] + list[1..][..IndexOf(list[1..], x)];
      1 + IndexOf(list[1..], x)
  }

  /** `list.remove(x)`: drop the first occurrence of `x`, keeping the order of
      the rest. Python raises `ValueError` when `x` is absent; the only caller,
      `Toggle`, removes a name it has just found, and the model returns a list
      without `x` unchanged. */
  function RemoveFirst(list: seq<string>, x: string): (r: seq<string>)
    ensures x !in list ==> r == list
    ensures x in list ==> |r| == |list| - 1 && multiset(r) == multiset(list) - multiset{x}
    ensures x in list ==> exists i :: 0 <= i < |list| && list[i] == x && x !in list[..i] &&
                                      r == list[..i] + list[i + 1..]
  {
    if x !in list then list
    else
      var i := IndexOf(list, x);
      assert list == list[..i] + [x] + list[i + 1..];
      list[..i] + list[i + 1..]
  }

  /** The toggle of `!autodelete`: remove the name if present, else append it. */
  function Toggle(list: seq<string>, name: string): (r: (seq<string>, Action))
    ensures r.1 == Disabled <==> name in list
    ensures name !in list ==> r.0 == list + [name]
    ensures name in list ==> |r.0| == |list| - 1 && multiset(r.0) == multiset(list) - multiset{name}
    ensures name in list ==> exists i :: 0 <= i < |list| && list[i] == name && name !in list[..i] &&
                                         r.0 == list[..i] + list[i + 1..]
  {
    if name in list then (RemoveFirst(list, name), Disabled) else (list + [name], Enabled)
  }

  /** The tier names, spelled out. */
  lemma ValidNamesListed(n: string)
    requires n in ValidNames()
    ensures n == "Common" || n == "Rare" || n == "Elite" || n == "Epic" || n == "Legendary"
  {
    var i :| 0 <= i < |ValidNames()| && ValidNames()[i] == n;
    assert n == Rarity.RarityTable[i].name;
  }

  // One lemma per tier name: each title-casing is proved on its own.
  lemma CommonIsTitled() ensures Text.Title("Common") == "Common" { Text.CapitalisedIsTitled("Common"); }
  lemma RareIsTitled() ensures Text.Title("Rare") == "Rare" { Text.CapitalisedIsTitled("Rare"); }
  lemma EliteIsTitled() ensures Text.Title("Elite") == "Elite" { Text.CapitalisedIsTitled("Elite"); }
  lemma EpicIsTitled() ensures Text.Title("Epic") == "Epic" { Text.CapitalisedIsTitled("Epic"); }
  lemma LegendaryIsTitled() ensures Text.Title("Legendary") == "Legendary" { Text.CapitalisedIsTitled("Legendary"); }

  /** The rarity names are unchanged by title-casing. */
  lemma ValidNamesAreTitled(n: string)
    requires n in ValidNames()
    ensures Text.Title(n) == n
  {
    ValidNamesListed(n);
    if n == "Common" { CommonIsTitled(); }
    else if n == "Rare" { RareIsTitled(); }
    else if n == "Elite" { EliteIsTitled(); }
    else if n == "Epic" { EpicIsTitled(); }
    else { LegendaryIsTitled(); }
  }

  /** `!autodelete` accepts its argument exactly when it spells a tier name in
      some mix of cases, and then toggles that tier's canonical name. */
  lemma AutodeleteAcceptsAnyCasing(arg: string)
    ensures Text.Title(arg) in ValidNames() <==> exists n :: n in ValidNames() && Text.Lower(arg) == Text.Lower(n)
    ensures forall n :: n in ValidNames() && Text.Lower(arg) == Text.Lower(n) ==> Text.Title(arg) == n
  {
    forall n | n in ValidNames()
      ensures Text.Title(arg) == n <==> Text.Lower(arg) == Text.Lower(n)
    {
      ValidNamesAreTitled(n);
      Text.TitleMatchesIff(arg, n);
    }
  }

  lemma RemoveFirstOfDistinct(list: seq<string>, x: string)
    requires NoDuplicates(list)
    ensures NoDuplicates(RemoveFirst(list, x))
    ensures forall y :: y in RemoveFirst(list, x) <==> y in list && y != x
  {
    if x in list {
      var i := IndexOf(list, x);
      var r := list[..i] + list[i + 1..];
      assert RemoveFirst(list, x) == r;
      assert forall a :: 0 <= a < |r| ==> r[a] == list[if a < i then a else a + 1];
      forall y | y in list && y != x ensures y in r {
        var k :| 0 <= k < |list| && list[k] == y;
        assert r[if k < i then k else k - 1] == y;
      }
    }
  }

  /** Removing a name that was just appended gives back the original list. */
  lemma RemoveFirstAppended(list: seq<string>, x: string)
    requires x !in list
    ensures RemoveFirst(list + [x], x) == list
  {
    var l := list + [x];
    assert l[..|list|] == list;
    assert IndexOf(l, x) == |list|;
  }

  /** On a well-formed list the toggle reports the action it took: `disabled`
      exactly when the name was there, and the name is there afterwards exactly
      when it reports `enabled`; no other name changes membership. */
  lemma ToggleReportsAction(list: seq<string>, name: string)
    requires NoDuplicates(list)
    ensures Toggle(list, name).1 == Disabled <==> name in list
    ensures name in Toggle(list, name).0 <==> Toggle(list, name).1 == Enabled
    ensures forall x :: x != name ==> (x in Toggle(list, name).0 <==> x in list)
    ensures NoDuplicates(Toggle(list, name).0)
  {
    if name in list {
      RemoveFirstOfDistinct(list, name);
    }
  }

  /** Toggling keeps the list well formed. */
  lemma TogglePreservesWellFormed(list: seq<string>, name: string)
    requires WellFormedList(list) && name in ValidNames()
    ensures WellFormedList(Toggle(list, name).0)
  {
    ToggleReportsAction(list, name);
  }

  /** Toggling twice restores every membership, reports the two opposite
      actions, and restores the list itself when the name was absent. */
  lemma ToggleTwice(list: seq<string>, name: string)
    requires NoDuplicates(list)
    ensures var (once, a1) := Toggle(list, name);
            var (twice, a2) := Toggle(once, name);
            a1 != a2 &&
            (forall x :: x in twice <==> x in list) &&
            (name !in list ==> twice == list)
  {
    var (once, a1) := Toggle(list, name);
    ToggleReportsAction(list, name);
    ToggleReportsAction(once, name);
    if name !in list {
      RemoveFirstAppended(list, name);
    }
  }

  /** Toggling "Epic" twice on fresh settings: enabled, then disabled, and the
      list is empty again. */
  /** `epic` and `EPIC` are both accepted, as the Epic tier. */
  lemma EpicInAnyCase()
    ensures "Epic" in ValidNames()
    ensures Text.Title("epic") == "Epic" && Text.Title("EPIC") == "Epic"
  {
    assert ValidNames()[3] == "Epic";
    EpicIsTitled();
    assert Text.Lower("epic") == Text.Lower("Epic") == Text.Lower("EPIC") == "epic";
    Text.TitleMatchesIff("epic", "Epic");
    Text.TitleMatchesIff("EPIC", "Epic");
  }

  lemma ToggleEpicTwiceExample()
    ensures Toggle(DefaultSettings.autodelete, "Epic") == (["Epic"], Enabled)
    ensures Toggle(["Epic"], "Epic") == ([], Disabled)
  {
    assert DefaultSettings.autodelete + ["Epic"] == ["Epic"];
  }
}
