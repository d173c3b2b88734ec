/**
 * The substitution dialog: the bench (every known name not on court, in its original
 * order), the two selections, and the guard in front of `onSubstitute`.
 */
module SubstitutionModal {
  import opened Wrappers
  import opened GameSetup

  /** `currentPlayers.map(p => p.name)`. */
  function Names(players: seq<Player>): (names: seq<string>)
    ensures |names| == |players|
    ensures forall i :: 0 <= i < |players| ==> names[i] == players[i].name
  {
    if players == [] then [] else Names(players[..|players| - 1]) + [players[|players| - 1].name]
  }

  /** `allPlayers.filter(name => !currentPlayerNames.includes(name))`. */
  function Available(current: seq<Player>, all: seq<string>): (bench: seq<string>)
    ensures |bench| <= |all|
  {
    if all == [] then []
    else
      var last := all[|all| - 1];
      Available(current, all[..|all| - 1]) + (if last in Names(current) then [] else [last])
  }

  /** A name is on the bench exactly when it is a known name that no current player has. */
  lemma {:induction false} AvailableMembers(current: seq<Player>, all: seq<string>)
    ensures forall name :: name in Available(current, all) <==> name in all && name !in Names(current)
    decreases |all|
  {
    if all != [] {
      var init := all[..|all| - 1];
      AvailableMembers(current, init);
      assert all == init + [all[|all| - 1]];
    }
  }

  /** No bench name belongs to a player on court. */
  lemma NobodyOnCourtIsAvailable(current: seq<Player>, all: seq<string>, i: nat)
    requires i < |current|
    ensures current[i].name !in Available(current, all)
  {
    AvailableMembers(current, all);
    assert Names(current)[i] == current[i].name;
  }

  /** Filtering distributes over concatenation, so the bench keeps the names in their original order. */
  lemma {:induction false} AvailableAppend(current: seq<Player>, a: seq<string>, b: seq<string>)
    ensures Available(current, a + b) == Available(current, a) + Available(current, b)
    decreases |b|
  {
    if b == [] {
      assert a + b == a;
    } else {
      var b' := b[..|b| - 1];
      assert (a + b)[..|a + b| - 1] == a + b';
      AvailableAppend(current, a, b');
    }
  }

  /** With nobody on court the bench is every known name; when every known name is on court it is empty. */
  lemma AvailableExtremes(current: seq<Player>, all: seq<string>)
    ensures current == [] ==> Available(current, all) == all
    ensures (forall name :: name in all ==> name in Names(current)) ==> Available(current, all) == []
  {
    AvailableMembers(current, all);
    if current == [] {
      AvailableOfNobody(all);
    }
    if Available(current, all) != [] {
      assert Available(current, all)[0] in Available(current, all);
    }
  }

  lemma {:induction false} AvailableOfNobody(all: seq<string>)
    ensures Available([], all) == all
    decreases |all|
  {
    if all != [] {
      AvailableOfNobody(all[..|all| - 1]);
    }
  }

  /** The confirm button's `disabled` condition: a selection is still the empty string. */
  predicate ConfirmDisabled(selectedOut: string, selectedIn: string) {
    selectedOut == "" || selectedIn == ""
  }

  /**
   * Choosing a home player (whose id `teamA-i` is never empty) and a bench name enables the
   * confirm button; while either choice is still missing it stays disabled.
   */
  lemma ConfirmGuard(i: nat, name: string)
    requires name != ""
    ensures !ConfirmDisabled(HomeId(i), name)
    ensures ConfirmDisabled("", name) && ConfirmDisabled(HomeId(i), "")
  {
    assert HomeId(i)[0] == 't';
  }

  class SubstitutionForm {
    var selectedOut: string
    var selectedIn: string

    /** Both selections start empty, so the confirm button starts disabled. */
    constructor()
      ensures selectedOut == "" && selectedIn == ""
      ensures ConfirmDisabled(selectedOut, selectedIn)
    {
      selectedOut := "";
      selectedIn := "";
    }

    /** A click on a current player selects that player's id to leave. */
    method SelectOut(player: Player)
      modifies this
      ensures selectedOut == player.id && selectedIn == old(selectedIn)
    {
      selectedOut := player.id;
    }

    /** A click on a bench name selects it to enter. */
    method SelectIn(name: string)
      modifies this
      ensures selectedIn == name && selectedOut == old(selectedOut)
    {
      selectedIn := name;
    }

    /**
     * `handleConfirm`: `onSubstitute(selectedOut, selectedIn)` happens exactly when both
     * selections are made, and is exactly the call the disabled button would not allow otherwise.
     */
    method Confirm() returns (call: Option<(string, string)>)
      ensures call.Some? <==> selectedOut != "" && selectedIn != ""
      ensures call.Some? <==> !ConfirmDisabled(selectedOut, selectedIn)
      ensures call.Some? ==> call.value == (selectedOut, selectedIn)
    {
      if selectedOut == "" || selectedIn == "" {
        return None;
      }
      call := Some((selectedOut, selectedIn));
    }
  }
}
