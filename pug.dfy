/** The bot object that src/logic/picking.rb (`PickingLogic`) and stateLogic.rb
    (`StateLogic`) are mixed into: its fields are the ones both modules read and
    assign, and its methods are their methods that change those fields. */
module PugBot {
  import opened Wrappers
  import opened Text
  import opened Picking
  import opened StateLogic

  /** What `next_pick` does after a successful pick: prompt the captain whose
      turn it now is, or finish the draft and hand on the final rosters. */
  datatype NextStep = Prompt(captain: Nick) | Final(rosters: seq<Team>)

  /** The reply to `pick_player`: a notice naming the refusal, or the pick made. */
  datatype PickOutcome = Rejected(error: PickError) | Picked(player: Nick, cls: ClassName, next: NextStep)

  /** The minimum-players test only passes when there are enough captains to
      elect one per team; `choose_captains` does not check this itself. */
  ghost predicate CaptainsAssured(minimumPlayers: Table -> bool, count: nat)
  {
    forall t :: minimumPlayers(t) ==> |ClassPool(t, "captain")| >= count
  }

  class Pug {
    /** `const["teams"]` */
    const cfg: Config
    /** `classes_needed(team.get_classes)`, defined in a file outside this model. */
    const classesNeeded: Team -> Needed
    /** `Afk_threshold`, in seconds. */
    const afkThreshold: nat

    /** `@state` */
    var state: State
    /** `@afk`: the users under AFK suspicion. */
    var afk: seq<Nick>
    /** `@signups` (called `@players` in stateLogic.rb): who is still unpicked. */
    var signups: Table
    /** `@teams` */
    var teams: seq<Team>
    /** `@pick`: how many players have been picked in this draft. */
    var pick: nat
    /** `@lookup`: the numbers captains may pick by. */
    var lookup: map<int, Nick>

    /** Teams exist exactly while picking, one per configured team, and while
        they do each player is in exactly one of the signups and one roster. */
    ghost predicate Valid()
      reads this
    {
      && cfg.count > 0
      && UniqueNicks(signups)
      && (state != Picking ==> teams == [] && pick == 0)
      && (state == Picking ==> |teams| == cfg.count && Partitioned(signups, teams))
    }

    /** The state that `start_picking` leaves behind, given the signups it started
        from: captains elected from those who added as captain and taken out of
        the signups, one fresh team per configured team, and a lookup over all of
        `before`. */
    ghost predicate DraftStarted(before: Table)
      reads this
    {
      && state == Picking
      && pick == 0
      && |teams| == cfg.count
      && IsLookupOf(lookup, Nicks(before))
      && signups == Without(before, Captains(teams))
      && (forall i :: 0 <= i < |teams| ==>
            teams[i] == Team(teams[i].captain, i, map[]) && teams[i].captain in ClassPool(before, "captain"))
    }

    constructor (cfg: Config, classesNeeded: Team -> Needed, afkThreshold: nat, signups: Table)
      requires cfg.count > 0 && UniqueNicks(signups)
      ensures Valid()
      ensures this.cfg == cfg && this.classesNeeded == classesNeeded && this.afkThreshold == afkThreshold
      ensures state == Waiting && afk == [] && this.signups == signups
      ensures teams == [] && pick == 0 && lookup == map[]
    {
      this.cfg := cfg;
      this.classesNeeded := classesNeeded;
      this.afkThreshold := afkThreshold;
      state := Waiting;
      afk := [];
      this.signups := signups;
      teams := [];
      pick := 0;
      lookup := map[];
    }

    /** `current_captain` */
    function CurrentCaptain(): (c: Nick)
      reads this
      requires Valid() && state == Picking
      ensures exists i :: 0 <= i < |teams| && teams[i].captain == c
    {
      CurrentTeam(teams, pick, cfg.count).captain
    }

    // -------------------------------------------------------------------------
    // stateLogic.rb

    /** `attempt_afk`: from waiting, once the minimum is met, check the AFK list
        (warning and removing those who fail twice) and then try to start picking.
        `minimumPlayers` is `minimum_players?`; `first` and `second` are what the
        two `refresh` passes report. */
    method AttemptAfk(minimumPlayers: Table -> bool, first: Nick -> Presence, second: Nick -> Presence)
      requires Valid() && CaptainsAssured(minimumPlayers, cfg.count)
      modifies this
      ensures Valid()
      ensures !(old(state) == Waiting && minimumPlayers(old(signups))) ==> unchanged(this)
      ensures old(state) == Waiting && minimumPlayers(old(signups)) ==>
                var confirmed := CheckAfk(CheckAfk(old(afk), first, afkThreshold), second, afkThreshold);
                var remaining := Without(old(signups), Elems(confirmed));
                && afk == []
                && (minimumPlayers(remaining) ==> DraftStarted(remaining))
                && (!minimumPlayers(remaining) ==> state == Waiting && signups == remaining && teams == [] && pick == 0 && lookup == old(lookup))
    {
      // The source compares with `state_waiting`, a lower-case name that is never
      // defined; the constant meant is `State_waiting`.
      if state == Waiting && minimumPlayers(signups) {
        ghost var before := signups;
        state := Afk;
        afk := CheckAfk(afk, first, afkThreshold);
        ghost var confirmed := CheckAfk(afk, second, afkThreshold);
        if afk != [] {
          StartAfk(second);
        } else {
          assert confirmed == [] && Elems(confirmed) == {};
          WithoutNothing(before);
        }
        assert signups == Without(before, Elems(confirmed));
        AttemptPicking(minimumPlayers);
      }
    }

    /** `attempt_picking`: start the draft (after the delay) if the minimum still
        holds, otherwise fall back to waiting. */
    method AttemptPicking(minimumPlayers: Table -> bool)
      requires Valid() && state != Picking && CaptainsAssured(minimumPlayers, cfg.count)
      modifies this
      ensures Valid() && afk == old(afk)
      ensures minimumPlayers(old(signups)) ==> DraftStarted(old(signups))
      ensures !minimumPlayers(old(signups)) ==>
                state == Waiting && signups == old(signups) && teams == [] && pick == 0 && lookup == old(lookup)
    {
      if minimumPlayers(signups) {
        StartDelay();
        StartPicking();
      } else {
        state := Waiting;
      }
    }

    /** `start_afk`: after warning the suspects and waiting `Afk_delay`, check them
        again and delete from the signups those still AFK; then clear `@afk`.
        `second` is what the second `refresh` reports. */
    method StartAfk(second: Nick -> Presence)
      requires Valid() && state != Picking
      modifies this`signups, this`afk
      ensures Valid()
      ensures signups == Without(old(signups), Elems(CheckAfk(old(afk), second, afkThreshold)))
      ensures afk == []
    {
      var confirmed := CheckAfk(afk, second, afkThreshold);
      WithoutNothing(signups);
      assert Elems(confirmed[..0]) == {};
      var i := 0;
      // The source iterates the result with `each_key`, which arrays do not have;
      // `each` is meant.
      while i < |confirmed|
        invariant 0 <= i <= |confirmed|
        invariant signups == Without(old(signups), Elems(confirmed[..i]))
        invariant UniqueNicks(signups)
      {
        WithoutMore(old(signups), Elems(confirmed[..i]), confirmed[i]);
        assert Elems(confirmed[..i + 1]) == Elems(confirmed[..i]) + {confirmed[i]} by {
          assert confirmed[..i + 1] == confirmed[..i] + [confirmed[i]];
        }
        signups := Without(signups, {confirmed[i]});
        i := i + 1;
      }
      assert confirmed[..i] == confirmed;
      afk := [];
    }

    /** `start_delay`: announce the draft and wait `Picking_delay`. */
    method StartDelay()
      requires Valid() && state != Picking
      modifies this`state
      ensures Valid() && state == Delay
    {
      state := Delay;
    }

    /** `start_picking`: enter picking, number the signups and elect captains. */
    method StartPicking()
      requires Valid() && state != Picking
      requires |ClassPool(signups, "captain")| >= cfg.count
      modifies this`state, this`lookup, this`teams, this`signups
      ensures Valid() && DraftStarted(old(signups))
    {
      state := Picking;
      UpdateLookup();
      ChooseCaptains();
      // `tell_captain` then prompts the first captain by notice.
    }

    /** `end_picking`: drop the teams and the lookup and go back to waiting. */
    method EndPicking()
      requires Valid()
      modifies this
      ensures Valid()
      ensures teams == [] && lookup == map[] && state == Waiting && pick == 0
      ensures signups == old(signups) && afk == old(afk)
    {
      teams := [];
      // The source clears `@loopup`, a misspelling that is nil there; the table
      // meant is `@lookup`.
      lookup := map[];
      state := Waiting;
      pick := 0;
    }

    // -------------------------------------------------------------------------
    // src/logic/picking.rb

    /** `update_lookup`: number the signups from 1 in signup order. */
    method UpdateLookup()
      modifies this`lookup
      ensures IsLookupOf(lookup, Nicks(signups))
      ensures 0 !in lookup
    {
      lookup := map[];
      var i := 0;
      while i < |signups|
        invariant 0 <= i <= |signups|
        invariant forall k :: k in lookup <==> 1 <= k <= i
        invariant forall k :: 1 <= k <= i ==> lookup[k] == signups[k - 1].nick
      {
        lookup := lookup[i + 1 := signups[i].nick];
        i := i + 1;
      }
    }

    /** `choose_captains`: for each configured team, take a captain at random from
        those who added as captain, give them a new team and delete them from the
        signups. The random index is a nondeterministic choice here. */
    method ChooseCaptains()
      requires cfg.count > 0 && teams == [] && UniqueNicks(signups)
      requires |ClassPool(signups, "captain")| >= cfg.count
      modifies this`teams, this`signups
      ensures |teams| == cfg.count && UniqueNicks(signups) && Partitioned(signups, teams)
      ensures forall i :: 0 <= i < |teams| ==>
                teams[i] == Team(teams[i].captain, i, map[]) && teams[i].captain in ClassPool(old(signups), "captain")
      ensures signups == Without(old(signups), Captains(teams))
    {
      var possible := ClassPool(signups, "captain");
      ghost var pool0 := possible;
      ghost var signups0 := signups;
      var ts: seq<Team> := [];
      var ss := signups;
      WithoutNothing(ss);
      assert Captains(ts) == {};
      var i := 0;
      while i < cfg.count
        invariant 0 <= i <= cfg.count && |ts| == i
        invariant Electing(signups0, pool0, ts, ss, possible, cfg.count)
      {
        var idx :| 0 <= idx < |possible|;
        var captain := possible[idx];
        ElectOne(signups0, pool0, ts, ss, possible, cfg.count, idx);
        possible := RemoveAt(possible, idx);
        ts := ts + [Team(captain, i, map[])];
        ss := Without(ss, {captain});
        i := i + 1;
      }
      teams, signups := ts, ss;
    }

    /** `pick_player`: the checks of `PickVerdict` as early returns; on success the
        player moves from the signups onto the current team under the lowercased
        class, and `next_pick` follows. */
    method PickPlayer(user: Nick, arg: string, cls: string) returns (outcome: PickOutcome)
      requires Valid()
      modifies this
      ensures Valid()
      ensures var v := PickVerdict(old(state) == Picking, old(teams), old(pick), cfg, classesNeeded,
                                   old(signups), old(lookup), user, arg, cls);
              && (outcome.Rejected? <==> v.Failure?)
              && (outcome.Rejected? ==> outcome.error == v.error && unchanged(this))
              && (outcome.Picked? ==> (outcome.player, outcome.cls) == v.value)
      ensures outcome.Picked? ==>
                var j := PickFormat(old(pick), cfg.count);
                var picked := old(teams)[j := AddPick(old(teams)[j], outcome.player, outcome.cls)];
                && old(state) == Picking
                && outcome.player in NickSet(old(signups))
                && outcome.player !in NickSet(signups)
                && signups == Without(old(signups), {outcome.player})
                && afk == old(afk)
                && (old(pick) + 1 < cfg.total - cfg.count ==>
                      && state == Picking && pick == old(pick) + 1 && teams == picked
                      && lookup == old(lookup)
                      && outcome.next == Prompt(CurrentTeam(picked, pick, cfg.count).captain))
                && (old(pick) + 1 >= cfg.total - cfg.count ==>
                      && state == Waiting && pick == 0 && teams == [] && lookup == map[]
                      && outcome.next == Final(CaptainsAssigned(picked, classesNeeded)))
    {
      if state != Picking {
        return Rejected(NotPicking);
      }
      if !CanPick(teams, pick, cfg.count, user) {
        return Rejected(NotYourTurn);
      }
      var c := Lower(cls);
      var player: Nick;
      var found := FindPlayer(Nicks(signups), arg);
      if found.Some? {
        player := found.value;
      } else {
        var k := ToI(arg);
        if !(k > 0 && k in lookup) {
          return Rejected(NotFound(arg));
        }
        player := lookup[k];
        if player !in NickSet(signups) {
          return Rejected(AlreadyPicked(player));
        }
      }
      if c !in cfg.classes {
        return Rejected(InvalidClass(c));
      }
      if !HasKey(classesNeeded(CurrentTeam(teams, pick, cfg.count)), c) {
        return Rejected(ClassFull(c));
      }
      var next := ApplyPick(player, c);
      outcome := Picked(player, c, next);
    }

    /** The effect of a pick that passed every check: `current_team.signups[player]
        = player_class`, `@signups.delete player`, then `next_pick`. */
    method ApplyPick(player: Nick, c: ClassName) returns (next: NextStep)
      requires Valid() && state == Picking && player in NickSet(signups)
      modifies this
      ensures Valid() && afk == old(afk)
      ensures player !in NickSet(signups) && signups == Without(old(signups), {player})
      ensures var j := PickFormat(old(pick), cfg.count);
              var picked := old(teams)[j := AddPick(old(teams)[j], player, c)];
              && (old(pick) + 1 < cfg.total - cfg.count ==>
                    && state == Picking && pick == old(pick) + 1 && teams == picked
                    && lookup == old(lookup)
                    && next == Prompt(CurrentTeam(picked, pick, cfg.count).captain))
              && (old(pick) + 1 >= cfg.total - cfg.count ==>
                    && state == Waiting && pick == 0 && teams == [] && lookup == map[]
                    && next == Final(CaptainsAssigned(picked, classesNeeded)))
    {
      var j := PickFormat(pick, cfg.count);
      PickKeepsPartition(signups, teams, j, player, c);
      teams := teams[j := AddPick(teams[j], player, c)];
      signups := Without(signups, {player});
      next := NextPick();
    }

    /** `next_pick`: count the pick; once `total - count` players are picked the
        draft is over, otherwise the next captain is prompted. */
    method NextPick() returns (next: NextStep)
      requires Valid() && state == Picking
      modifies this
      ensures Valid() && signups == old(signups) && afk == old(afk)
      ensures old(pick) + 1 >= cfg.total - cfg.count ==>
                && next == Final(CaptainsAssigned(old(teams), classesNeeded))
                && teams == [] && pick == 0 && state == Waiting && lookup == map[]
      ensures old(pick) + 1 < cfg.total - cfg.count ==>
                && next == Prompt(CurrentTeam(old(teams), old(pick) + 1, cfg.count).captain)
                && pick == old(pick) + 1 && teams == old(teams) && state == Picking && lookup == old(lookup)
    {
      pick := pick + 1;
      if pick >= cfg.total - cfg.count {
        var rosters := FinalPick();
        next := Final(rosters);
      } else {
        // `tell_captain` lists the open classes to this captain by notice.
        next := Prompt(CurrentTeam(teams, pick, cfg.count).captain);
      }
    }

    /** `final_pick`, with the captains given their classes before the draft
        state is reset: `rosters` are the teams that are then printed, announced
        and recorded. */
    method FinalPick() returns (rosters: seq<Team>)
      requires Valid() && state == Picking
      modifies this
      ensures Valid()
      ensures rosters == CaptainsAssigned(old(teams), classesNeeded) && |rosters| == cfg.count
      ensures teams == [] && lookup == map[] && state == Waiting && pick == 0
      ensures signups == old(signups) && afk == old(afk)
    {
      UpdateCaptains();
      rosters := teams;
      EndPicking();
    }

    /** `final_pick` in the order the source calls things: `end_picking` empties
        `@teams` before `update_captains`, so no captain gets a class and there
        are no rosters left to print, announce or record. */
    method FinalPickAsWritten() returns (rosters: seq<Team>)
      requires Valid() && state == Picking
      modifies this
      ensures Valid()
      ensures rosters == [] && |old(teams)| == cfg.count > 0
      ensures teams == [] && lookup == map[] && state == Waiting && pick == 0
      ensures signups == old(signups) && afk == old(afk)
    {
      EndPicking();
      UpdateCaptains();
      rosters := teams;
    }

    /** `update_captains`: enter each captain on their own team with the first
        class that team still needs. */
    method UpdateCaptains()
      requires Valid()
      modifies this`teams
      ensures Valid()
      ensures teams == CaptainsAssigned(old(teams), classesNeeded)
    {
      var i := 0;
      while i < |teams|
        invariant 0 <= i <= |teams| == |old(teams)|
        invariant forall k :: 0 <= k < i ==> teams[k] == WithCaptainClass(old(teams)[k], classesNeeded)
        invariant forall k :: i <= k < |teams| ==> teams[k] == old(teams)[k]
        invariant forall k :: 0 <= k < |teams| ==> Members(teams[k]) == Members(old(teams)[k])
      {
        teams := teams[i := WithCaptainClass(teams[i], classesNeeded)];
        i := i + 1;
      }
    }
  }
}
