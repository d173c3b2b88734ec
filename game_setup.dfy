/**
 * The setup screen: the editable list of home-player names, and the check that turns
 * it into the two teams a game starts with.
 */
module GameSetup {
  import opened Wrappers
  import opened Sequences
  import opened Decimal

  /** A roster player: a generated id and the display name. */
  datatype Player = Player(id: string, name: string)

  datatype Team = Team(name: string, players: seq<Player>)

  /** What `handleStart` hands to the game: the home team with its players, the away team empty. */
  datatype GameData = GameData(teamA: Team, teamB: Team)

  /** The ids of a player list, in order. */
  function Ids(players: seq<Player>): (ids: seq<string>)
    ensures |ids| == |players|
    ensures forall i :: 0 <= i < |players| ==> ids[i] == players[i].id
  {
    seq(|players|, i requires 0 <= i < |players| => players[i].id)
  }

  // ---- roster editing ----

  /** `list.filter((_, i) => i !== index)`. */
  function Without(s: seq<string>, index: int): (r: seq<string>)
    ensures |r| <= |s|
  {
    if s == [] then []
    else Without(s[..|s| - 1], index) + (if |s| - 1 != index then [s[|s| - 1]] else [])
  }

  /** Removing drops exactly the entry at `index` and keeps the rest in order; any other index changes nothing. */
  lemma {:induction false} WithoutRemovesIndex(s: seq<string>, index: int)
    ensures 0 <= index < |s| ==> Without(s, index) == s[..index] + s[index + 1..]
    ensures !(0 <= index < |s|) ==> Without(s, index) == s
    decreases |s|
  {
    if s != [] {
      var init := s[..|s| - 1];
      WithoutRemovesIndex(init, index);
      if 0 <= index < |s| - 1 {
        assert init[..index] == s[..index];
        assert init[index + 1..] + [s[|s| - 1]] == s[index + 1..];
      } else if index == |s| - 1 {
        assert init == s[..index];
      } else {
        assert init + [s[|s| - 1]] == s;
      }
    }
  }

  /** The names being typed on the setup screen (`teamAPlayers`). */
  class RosterForm {
    var teamAPlayers: seq<string>

    /** The list starts with one empty name. */
    constructor ()
      ensures teamAPlayers == [""]
    {
      teamAPlayers := [""];
    }

    /** `addPlayer`: one more, empty, name at the end. */
    method AddPlayer()
      modifies this
      ensures teamAPlayers == old(teamAPlayers) + [""]
      ensures |teamAPlayers| == |old(teamAPlayers)| + 1
    {
      teamAPlayers := teamAPlayers + [""];
    }

    /** `updatePlayer`: a copy of the list with one entry replaced; it is called only for a listed row. */
    method UpdatePlayer(index: nat, name: string)
      requires index < |teamAPlayers|
      modifies this
      ensures |teamAPlayers| == |old(teamAPlayers)|
      ensures teamAPlayers[index] == name
      ensures forall i :: 0 <= i < |teamAPlayers| && i != index ==> teamAPlayers[i] == old(teamAPlayers)[i]
    {
      var updated := new string[|teamAPlayers|](i requires 0 <= i < |teamAPlayers| reads this => teamAPlayers[i]);
      updated[index] := name;
      teamAPlayers := updated[..];
    }

    /**
     * `removePlayer`: the remove button is shown only while more than one name is
     * listed, so the list never becomes empty.
     */
    method RemovePlayer(index: nat)
      requires |teamAPlayers| > 1 && index < |teamAPlayers|
      modifies this
      ensures teamAPlayers == old(teamAPlayers)[..index] + old(teamAPlayers)[index + 1..]
      ensures |teamAPlayers| >= 1
    {
      WithoutRemovesIndex(teamAPlayers, index);
      teamAPlayers := Without(teamAPlayers, index);
    }
  }

  // ---- starting the game ----

  /** The characters `String.prototype.trim` removes: white space and line terminators. */
  predicate IsSpace(c: char) {
    || c == '\t' || c == '\n' || c == '\U{B}' || c == '\U{C}' || c == '\r' || c == ' '
    || c == '\U{A0}' || c == '\U{1680}' || ('\U{2000}' <= c <= '\U{200A}')
    || c == '\U{2028}' || c == '\U{2029}' || c == '\U{202F}' || c == '\U{205F}'
    || c == '\U{3000}' || c == '\U{FEFF}'
  }

  /** Drops leading white space. */
  function TrimStart(s: string): (r: string)
    ensures |r| <= |s| && r == s[|s| - |r|..]
    ensures forall i :: 0 <= i < |s| - |r| ==> IsSpace(s[i])
    ensures r == [] || !IsSpace(r[0])
  {
    if s != [] && IsSpace(s[0]) then TrimStart(s[1..]) else s
  }

  /** Drops trailing white space. */
  function TrimEnd(s: string): (r: string)
    ensures |r| <= |s| && r == s[..|r|]
    ensures forall i :: |r| <= i < |s| ==> IsSpace(s[i])
    ensures r == [] || !IsSpace(r[|r| - 1])
  {
    if s != [] && IsSpace(s[|s| - 1]) then TrimEnd(s[..|s| - 1]) else s
  }

  /** `s.trim()`. */
  function Trim(s: string): string {
    TrimEnd(TrimStart(s))
  }

  /** A name is blank (`!name.trim()`) exactly when every character is white space. */
  lemma TrimEmpty(s: string)
    ensures Trim(s) == [] <==> forall i :: 0 <= i < |s| ==> IsSpace(s[i])
  {
    var t := TrimStart(s);
    if t != [] {
      assert !IsSpace(t[0]);
      assert Trim(s) != [];
      assert t[0] == s[|s| - |t|];
    }
  }

  /** Trimming leaves no white space at either end. */
  lemma TrimTrims(s: string)
    ensures Trim(s) == [] || (!IsSpace(Trim(s)[0]) && !IsSpace(Trim(s)[|Trim(s)| - 1]))
  {
    var t := TrimStart(s);
    var r := Trim(s);
    if r != [] {
      assert r[0] == t[0];
    }
  }

  /** The filter `name => name.trim()`: true for a name that is not blank. */
  function Filled(name: string): bool {
    Trim(name) != []
  }

  /** The id of the i-th valid player: `teamA-${i}`. */
  function HomeId(i: nat): string {
    "teamA-" + NatToString(i)
  }

  /** The players of the valid names: numbered ids, trimmed names. */
  function NumberedPlayers(valid: seq<string>): (ps: seq<Player>)
    ensures |ps| == |valid|
  {
    seq(|valid|, i requires 0 <= i < |valid| => Player(HomeId(i), Trim(valid[i])))
  }

  /** `handleStart`: None when no name is filled in (the source alerts and stays on this screen). */
  function HandleStart(teamAName: string, teamBName: string, names: seq<string>): (r: Option<GameData>)
    ensures r.Some? ==> r.value.teamA.name == teamAName && r.value.teamB.name == teamBName && r.value.teamB.players == []
    ensures r.Some? ==> 0 < |r.value.teamA.players|
  {
    var valid := Having(names, Filled, true);
    if |valid| == 0 then None
    else Some(GameData(Team(teamAName, NumberedPlayers(valid)), Team(teamBName, [])))
  }

  /** The game is refused exactly when every name is blank. */
  lemma StartRefusedIffAllBlank(teamAName: string, teamBName: string, names: seq<string>)
    ensures HandleStart(teamAName, teamBName, names) == None
        <==> forall i :: 0 <= i < |names| ==> Trim(names[i]) == []
  {
    HavingEmpty(names, Filled, true);
  }

  /**
   * A started game: the home players are the filled-in names, trimmed, in order, with ids
   * `teamA-0`, `teamA-1`, ... which are pairwise distinct; the away team has no players.
   */
  lemma StartRoster(teamAName: string, teamBName: string, names: seq<string>)
    requires HandleStart(teamAName, teamBName, names).Some?
    ensures var g := HandleStart(teamAName, teamBName, names).value;
      var valid := Having(names, Filled, true);
      && g.teamA.name == teamAName && g.teamB.name == teamBName && g.teamB.players == []
      && |g.teamA.players| == |valid| > 0
      && (forall i :: 0 <= i < |valid| ==> g.teamA.players[i] == Player(HomeId(i), Trim(valid[i])))
      && (forall i :: 0 <= i < |valid| ==> g.teamA.players[i].name != [])
      && Distinct(Ids(g.teamA.players))
  {
    var valid := Having(names, Filled, true);
    var ps := NumberedPlayers(valid);
    HavingMembers(names, Filled, true);
    forall i | 0 <= i < |valid| ensures ps[i].name != [] {
      assert valid[i] in valid;
    }
    forall i, j | 0 <= i < j < |ps| ensures Ids(ps)[i] != Ids(ps)[j] {
      PrefixedInjective("teamA-", i, j);
    }
  }
}
