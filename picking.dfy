/** The value-level part of src/logic/picking.rb: the signup table and team
    records it works on, the three pick-order functions, the name and number
    lookups a captain picks by, and the ordered validation chain of
    `pick_player`. The methods that update the draft in place are in
    `PugBot.Pug`. */
module Picking {
  import opened Wrappers
  import opened Text

  /** One entry of the `@signups` hash: a nick and the classes it added for. */
  datatype Signup = Signup(nick: Nick, classes: seq<ClassName>)

  /** `@signups`, a Ruby hash kept in insertion order. */
  type Table = seq<Signup>

  /** `const["teams"]`: the number of teams, the total number of players and the
      pickable classes (the keys of `const["teams"]["classes"]`). */
  datatype Config = Config(count: nat, total: nat, classes: set<ClassName>)

  /** A team being drafted: its captain, the index of its entry in
      `const["teams"]["details"]`, and `signups`, which maps each picked player to
      the class they were picked as. A captain is entered with the class
      `update_captains` finds, which is `nil` (None) when nothing is left open. */
  datatype Team = Team(captain: Nick, details: nat, signups: map<Nick, Option<ClassName>>)

  /** The classes still open on a team, in order, with how many slots each has:
      the hash `classes_needed(team.get_classes)` returns. */
  type Needed = seq<(ClassName, int)>

  // ---------------------------------------------------------------------------
  // The signup table

  /** `@signups.keys` */
  function Nicks(t: Table): (r: seq<Nick>)
    ensures |r| == |t| && forall i :: 0 <= i < |t| ==> r[i] == t[i].nick
  {
    if t == [] then [] else [t[0].nick] + Nicks(t[1..])
  }

  function NickSet(t: Table): set<Nick>
  {
    set s | s in t :: s.nick
  }

  ghost predicate UniqueNicks(t: Table)
  {
    forall i, j :: 0 <= i < j < |t| ==> t[i].nick != t[j].nick
  }

  /** `@signups.delete` of every nick in `gone`; the rest keep their order. */
  function Without(t: Table, gone: set<Nick>): (r: Table)
    ensures forall s :: s in r <==> s in t && s.nick !in gone
    ensures NickSet(r) == NickSet(t) - gone
    ensures UniqueNicks(t) ==> UniqueNicks(r)
  {
    if t == [] then []
    else if t[0].nick in gone then Without(t[1..], gone)
    else
      var rest := Without(t[1..], gone);
      assert NickSet(t) == {t[0].nick} + NickSet(t[1..]);
      assert NickSet([t[0]] + rest) == {t[0].nick} + NickSet(rest);
      assert UniqueNicks(t) ==> t[0].nick !in NickSet(t[1..]);
      [t[0]] + rest
  }

  /** Deleting from a table split in two deletes from each part, so the
      signups that stay keep their relative order. */
  lemma {:induction false} WithoutAppend(a: Table, b: Table, gone: set<Nick>)
    ensures Without(a + b, gone) == Without(a, gone) + Without(b, gone)
  {
    if a == [] {
      assert a + b == b;
    } else {
      var ab := a + b;
      assert ab[0] == a[0] && ab[1..] == a[1..] + b;
      WithoutAppend(a[1..], b, gone);
      if a[0].nick !in gone {
        calc {
          Without(ab, gone);
          [a[0]] + Without(a[1..] + b, gone);
          [a[0]] + (Without(a[1..], gone) + Without(b, gone));
          ([a[0]] + Without(a[1..], gone)) + Without(b, gone);
        }
      } else {
        assert Without(ab, gone) == Without(a[1..] + b, gone);
        assert Without(a, gone) == Without(a[1..], gone);
      }
    }
  }

  /** On one signup, deleting keeps it exactly when its nick is not deleted. */
  lemma WithoutOne(s: Signup, gone: set<Nick>)
    ensures Without([s], gone) == if s.nick in gone then [] else [s]
  {
    assert [s][1..] == [];
  }

  ghost predicate Distinct(s: seq<Nick>)
  {
    forall i, j :: 0 <= i < j < |s| ==> s[i] != s[j]
  }

  /** `Array#delete_at` */
  function RemoveAt(s: seq<Nick>, idx: nat): (r: seq<Nick>)
    requires idx < |s|
    ensures |r| == |s| - 1
    ensures forall n :: n in r ==> n in s
    ensures Distinct(s) ==> Distinct(r) && s[idx] !in r
  {
    var r := s[..idx] + s[idx + 1..];
    assert forall a :: 0 <= a < |r| ==> r[a] == (if a < idx then s[a] else s[a + 1]);
    r
  }

  /** The set of nicks a list of nicks holds. */
  function Elems(s: seq<Nick>): set<Nick>
  {
    set n | n in s
  }

  /** Deleting nothing leaves the table as it was. */
  lemma {:induction false} WithoutNothing(t: Table)
    ensures Without(t, {}) == t
  {
    if t != [] {
      WithoutNothing(t[1..]);
    }
  }

  /** Deleting one more nick from a table already filtered is filtering once by
      the larger set. */
  lemma {:induction false} WithoutMore(t: Table, gone: set<Nick>, n: Nick)
    ensures Without(Without(t, gone), {n}) == Without(t, gone + {n})
  {
    if t != [] {
      WithoutMore(t[1..], gone, n);
    }
  }

  /** `get_classes[cls]`: the nicks, in signup order, that added for `cls`. */
  function ClassPool(t: Table, cls: ClassName): (r: seq<Nick>)
    ensures forall n :: n in r ==> n in NickSet(t)
    ensures UniqueNicks(t) ==> Distinct(r)
  {
    if t == [] then []
    else
      var rest := ClassPool(t[1..], cls);
      assert NickSet(t) == {t[0].nick} + NickSet(t[1..]);
      if cls in t[0].classes then
        assert UniqueNicks(t) ==> t[0].nick !in rest;
        [t[0].nick] + rest
      else rest
  }

  /** A nick is in the pool for `cls` exactly when its signup lists `cls`. */
  lemma {:induction false} ClassPoolMembers(t: Table, cls: ClassName, n: Nick)
    ensures n in ClassPool(t, cls) <==> exists s :: s in t && s.nick == n && cls in s.classes
  {
    if t != [] {
      ClassPoolMembers(t[1..], cls, n);
      assert forall s :: s in t <==> s == t[0] || s in t[1..];
    }
  }

  // ---------------------------------------------------------------------------
  // Pick order

  /** `sequential`: round robin, 0 1 0 1 ... for two teams. */
  function Sequential(n: nat, count: nat): (r: nat)
    requires count > 0
    ensures r < count
  {
    n % count
  }

  /** `staggered`: 0 1 1 0 0 1 1 0 ... for two teams. As the source's own comment
      says, it is meant for two teams only; the formula is kept for every count. */
  function Staggered(n: nat, count: nat): (r: nat)
    requires count > 0
    ensures r < count
  {
    ((n + 1) / count) % count
  }

  /** `hybrid`: sequential for the first four picks, then staggered shifted by two. */
  function Hybrid(n: nat, count: nat): (r: nat)
    requires count > 0
    ensures r < count
  {
    if n < 4 then Sequential(n, count) else Staggered(n - 2, count)
  }

  /** `pick_format`: the policy in use, which is `staggered`. */
  function PickFormat(n: nat, count: nat): (r: nat)
    requires count > 0
    ensures r < count
  {
    Staggered(n, count)
  }

  lemma HalfOfShift(n: nat)
    ensures (n + 4) / 2 == n / 2 + 2
  {
  }

  /** With two teams `staggered` repeats 0 1 1 0 with period four. */
  lemma {:induction false} StaggeredTwoTeams(n: nat)
    ensures Staggered(n, 2) == [0, 1, 1, 0][n % 4]
  {
    if n >= 4 {
      StaggeredTwoTeams(n - 4);
      HalfOfShift(n - 4 + 1);
      assert (n + 1) / 2 == (n - 4 + 1) / 2 + 2;
    }
  }

  /** With two teams `hybrid` gives 0 1 0 1 and then repeats 1 0 0 1. */
  lemma HybridTwoTeams(n: nat)
    ensures n < 4 ==> Hybrid(n, 2) == n % 2
    ensures n >= 4 ==> Hybrid(n, 2) == [1, 0, 0, 1][(n - 4) % 4]
  {
    if n >= 4 {
      StaggeredTwoTeams(n - 2);
      assert (n - 2) % 4 == ((n - 4) % 4 + 2) % 4;
    }
  }

  /** How many of the first `n` picks `staggered` gives to `team`. */
  function Turns(team: nat, n: nat, count: nat): nat
    requires count > 0
  {
    if n == 0 then 0
    else Turns(team, n - 1, count) + (if Staggered(n - 1, count) == team then 1 else 0)
  }

  /** With two teams, the four picks from a multiple of four give each team
      two of them. */
  lemma BlockOfFour(team: nat, b: nat)
    requires team < 2 && b % 4 == 0
    ensures Turns(team, b + 4, 2) == Turns(team, b, 2) + 2
  {
    StaggeredTwoTeams(b);
    StaggeredTwoTeams(b + 1);
    StaggeredTwoTeams(b + 2);
    StaggeredTwoTeams(b + 3);
    assert (b + 1) % 4 == 1 && (b + 2) % 4 == 2 && (b + 3) % 4 == 3;
    assert Turns(team, b + 4, 2) == Turns(team, b + 3, 2) + (if Staggered(b + 3, 2) == team then 1 else 0);
    assert Turns(team, b + 3, 2) == Turns(team, b + 2, 2) + (if Staggered(b + 2, 2) == team then 1 else 0);
    assert Turns(team, b + 2, 2) == Turns(team, b + 1, 2) + (if Staggered(b + 1, 2) == team then 1 else 0);
  }

  /** With two teams, every block of four picks gives each team two of them. */
  lemma {:induction false} TwoTeamsShareEvenly(team: nat, k: nat)
    requires team < 2
    ensures Turns(team, 4 * k, 2) == 2 * k
  {
    if k > 0 {
      TwoTeamsShareEvenly(team, k - 1);
      BlockOfFour(team, 4 * (k - 1));
    }
  }

  /** The documented limitation: with three teams the first team picks twice
      before anyone else, then the second and third pick three times each. */
  lemma StaggeredThreeTeams()
    ensures [Staggered(0, 3), Staggered(1, 3), Staggered(2, 3), Staggered(3, 3),
             Staggered(4, 3), Staggered(5, 3), Staggered(6, 3), Staggered(7, 3),
             Staggered(8, 3)] == [0, 0, 1, 1, 1, 2, 2, 2, 0]
  {
  }

  /** `current_team`: the team whose turn pick number `pick` is. */
  function CurrentTeam(teams: seq<Team>, pick: nat, count: nat): (t: Team)
    requires count > 0 && |teams| == count
    ensures t in teams
  {
    teams[PickFormat(pick, count)]
  }

  /** `can_pick?`: the caller is the captain of the team whose turn it is. */
  function CanPick(teams: seq<Team>, pick: nat, count: nat, nick: Nick): (r: bool)
    requires count > 0 && |teams| == count
    ensures r ==> nick in Captains(teams)
  {
    CurrentTeam(teams, pick, count).captain == nick
  }

  /** With distinct captains, a captain may pick exactly on the picks the pick
      order gives to their own team, and no other captain may. */
  lemma CanPickOnTurn(teams: seq<Team>, pick: nat, count: nat, j: nat)
    requires count > 0 && |teams| == count && j < count
    requires forall a, b :: 0 <= a < b < |teams| ==> teams[a].captain != teams[b].captain
    ensures CanPick(teams, pick, count, teams[j].captain) <==> PickFormat(pick, count) == j
  {
    var c := PickFormat(pick, count);
    if c != j {
      assert c < j ==> teams[c].captain != teams[j].captain;
      assert j < c ==> teams[j].captain != teams[c].captain;
    }
  }

  /** Rosters that keep every player in one place have distinct captains. */
  lemma PartitionedCaptains(signups: Table, teams: seq<Team>)
    requires Partitioned(signups, teams)
    ensures forall a, b :: 0 <= a < b < |teams| ==> teams[a].captain != teams[b].captain
  {
    forall a, b | 0 <= a < b < |teams|
      ensures teams[a].captain != teams[b].captain
    {
      assert teams[a].captain in Members(teams[a]) && teams[b].captain in Members(teams[b]);
    }
  }

  /** With two teams and distinct captains, each captain may pick on exactly
      two of every four picks. */
  lemma TwoCaptainsPickTwiceInFour(teams: seq<Team>, j: nat, k: nat)
    requires |teams| == 2 && j < 2 && teams[0].captain != teams[1].captain
    ensures forall p :: 0 <= p < 4 * k ==>
              (CanPick(teams, p, 2, teams[j].captain) <==> Staggered(p, 2) == j)
    ensures Turns(j, 4 * k, 2) == 2 * k
  {
    forall p | 0 <= p < 4 * k
      ensures CanPick(teams, p, 2, teams[j].captain) <==> Staggered(p, 2) == j
    {
      CanPickOnTurn(teams, p, 2, j);
    }
    TwoTeamsShareEvenly(j, k);
  }

  // ---------------------------------------------------------------------------
  // Finding the player a captain names

  /** `find_player`: the first key equal to the query up to case, or nil. */
  function FindPlayer(keys: seq<Nick>, query: string): (r: Option<Nick>)
    ensures r.Some? ==> r.value in keys && Lower(r.value) == Lower(query)
    ensures r.None? <==> forall k :: k in keys ==> Lower(k) != Lower(query)
    ensures r.Some? ==> exists i :: 0 <= i < |keys| && keys[i] == r.value &&
                          forall j :: 0 <= j < i ==> Lower(keys[j]) != Lower(query)
  {
    if keys == [] then None
    else if Lower(keys[0]) == Lower(query) then Some(keys[0])
    else
      var r := FindPlayer(keys[1..], query);
      assert forall k :: k in keys[1..] ==> k in keys;
      if r.Some? then
        var i :| 0 <= i < |keys[1..]| && keys[1..][i] == r.value &&
                 forall j :: 0 <= j < i ==> Lower(keys[1..][j]) != Lower(query);
        assert keys[i + 1] == r.value;
        r
      else r
  }

  /** `update_lookup`'s table: key `i + 1` names the `i`-th signup. */
  ghost predicate IsLookupOf(lookup: map<int, Nick>, keys: seq<Nick>)
  {
    (forall k :: k in lookup <==> 1 <= k <= |keys|) &&
    (forall k :: 1 <= k <= |keys| ==> lookup[k] == keys[k - 1])
  }

  /** Why a pick is refused; each carries what the notice names. */
  datatype PickError =
    | NotPicking
    | NotYourTurn
    | NotFound(arg: string)
    | AlreadyPicked(player: Nick)
    | InvalidClass(cls: ClassName)
    | ClassFull(cls: ClassName)

  /** The player named by `arg`: a signup whose nick equals it up to case, or
      else the entry of `@lookup` at `arg.to_i` when that is positive, provided
      that player is still signed up. */
  function PickTarget(signups: Table, lookup: map<int, Nick>, arg: string): (r: Result<Nick, PickError>)
    ensures r.Success? ==> r.value in NickSet(signups)
    ensures FindPlayer(Nicks(signups), arg).Some? ==> r == Success(FindPlayer(Nicks(signups), arg).value)
    ensures FindPlayer(Nicks(signups), arg).None? && ToI(arg) > 0 && ToI(arg) in lookup ==>
              (lookup[ToI(arg)] in NickSet(signups) ==> r == Success(lookup[ToI(arg)])) &&
              (lookup[ToI(arg)] !in NickSet(signups) ==> r == Failure(AlreadyPicked(lookup[ToI(arg)])))
    ensures r.Failure? ==> FindPlayer(Nicks(signups), arg).None?
    ensures r == Failure(NotFound(arg)) <==>
              FindPlayer(Nicks(signups), arg).None? && (ToI(arg) <= 0 || ToI(arg) !in lookup)
    ensures r.Failure? && r.error != NotFound(arg) ==>
              ToI(arg) > 0 && ToI(arg) in lookup && r.error == AlreadyPicked(lookup[ToI(arg)]) &&
              lookup[ToI(arg)] !in NickSet(signups)
  {
    match FindPlayer(Nicks(signups), arg)
    case Some(p) =>
      assert p in NickSet(signups) by {
        var i :| 0 <= i < |signups| && Nicks(signups)[i] == p;
        assert signups[i] in signups;
      }
      Success(p)
    case None =>
      var k := ToI(arg);
      if k > 0 && k in lookup then
        if lookup[k] in NickSet(signups) then Success(lookup[k]) else Failure(AlreadyPicked(lookup[k]))
      else Failure(NotFound(arg))
  }

  /** A captain who types the number shown beside a player still signed up gets
      that player, provided no nick matches the typed text. */
  lemma PickByNumber(signups: Table, lookup: map<int, Nick>, k: nat)
    requires k in lookup && k > 0 && lookup[k] in NickSet(signups)
    requires FindPlayer(Nicks(signups), Decimal(k)).None?
    ensures PickTarget(signups, lookup, Decimal(k)) == Success(lookup[k])
  {
    ToIDecimal(k);
  }

  /** `pick_class_avaliable?` reads the keys of the needed-classes hash. */
  predicate HasKey(needed: Needed, cls: ClassName)
  {
    exists i :: 0 <= i < |needed| && needed[i].0 == cls
  }

  /** `pick_player`'s checks, in the order the source makes them: picking has
      started; it is the caller's turn; the player can be found and is unpicked;
      the class (lowercased) is a configured class; the current team still needs
      it. On success, the player and the class they are picked as. */
  function PickVerdict(picking: bool, teams: seq<Team>, pick: nat, cfg: Config,
                       neededOf: Team -> Needed, signups: Table, lookup: map<int, Nick>,
                       user: Nick, arg: string, cls: string): (r: Result<(Nick, ClassName), PickError>)
    requires picking ==> cfg.count > 0 && |teams| == cfg.count
    ensures r == Failure(NotPicking) <==> !picking
    ensures r == Failure(NotYourTurn) <==> picking && !CanPick(teams, pick, cfg.count, user)
    ensures picking && CanPick(teams, pick, cfg.count, user) && PickTarget(signups, lookup, arg).Failure? ==>
              r == Failure(PickTarget(signups, lookup, arg).error)
    ensures r.Failure? && (r.error.InvalidClass? || r.error.ClassFull?) ==>
              picking && PickTarget(signups, lookup, arg).Success? && r.error.cls == Lower(cls)
    ensures r.Failure? && r.error.ClassFull? ==> Lower(cls) in cfg.classes
    ensures picking && CanPick(teams, pick, cfg.count, user) && PickTarget(signups, lookup, arg).Success? ==>
              && (Lower(cls) !in cfg.classes ==> r == Failure(InvalidClass(Lower(cls))))
              && (Lower(cls) in cfg.classes && !HasKey(neededOf(CurrentTeam(teams, pick, cfg.count)), Lower(cls)) ==>
                    r == Failure(ClassFull(Lower(cls))))
              && (Lower(cls) in cfg.classes && HasKey(neededOf(CurrentTeam(teams, pick, cfg.count)), Lower(cls)) ==>
                    r == Success((PickTarget(signups, lookup, arg).value, Lower(cls))))
    ensures r.Success? ==>
              picking && CanPick(teams, pick, cfg.count, user) &&
              r.value.0 in NickSet(signups) && r.value.0 == PickTarget(signups, lookup, arg).value &&
              r.value.1 == Lower(cls) && r.value.1 in cfg.classes &&
              HasKey(neededOf(CurrentTeam(teams, pick, cfg.count)), r.value.1)
  {
    if !picking then Failure(NotPicking)
    else if !CanPick(teams, pick, cfg.count, user) then Failure(NotYourTurn)
    else match PickTarget(signups, lookup, arg)
      case Failure(e) => Failure(e)
      case Success(p) =>
        var c := Lower(cls);
        if c !in cfg.classes then Failure(InvalidClass(c))
        else if !HasKey(neededOf(CurrentTeam(teams, pick, cfg.count)), c) then Failure(ClassFull(c))
        else Success((p, c))
  }

  // ---------------------------------------------------------------------------
  // Teams and the partition of players

  /** The captains of the teams. */
  function Captains(teams: seq<Team>): set<Nick>
  {
    set t | t in teams :: t.captain
  }

  lemma CaptainsAppend(teams: seq<Team>, t: Team)
    ensures Captains(teams + [t]) == Captains(teams) + {t.captain}
  {
    assert forall x :: x in teams + [t] <==> x in teams || x == t;
  }

  /** Everyone on a team: its captain and the players picked into it. */
  function Members(t: Team): set<Nick>
  {
    {t.captain} + t.signups.Keys
  }

  /** Unpicked signups and team rosters never share a player, and no two teams
      share one. */
  ghost predicate Partitioned(signups: Table, teams: seq<Team>)
  {
    (forall i :: 0 <= i < |teams| ==> Members(teams[i]) !! NickSet(signups)) &&
    (forall i, j :: 0 <= i < j < |teams| ==> Members(teams[i]) !! Members(teams[j]))
  }

  /** `current_team.signups[player] = player_class` */
  function AddPick(t: Team, player: Nick, cls: ClassName): (r: Team)
    ensures r.captain == t.captain && r.details == t.details
    ensures Members(r) == Members(t) + {player}
    ensures player in r.signups && r.signups[player] == Some(cls)
    ensures forall n :: n in t.signups && n != player ==> n in r.signups && r.signups[n] == t.signups[n]
  {
    t.(signups := t.signups[player := Some(cls)])
  }

  /** Moving a signed-up player onto one team keeps the partition, and the
      player ends up on exactly that team. */
  lemma PickKeepsPartition(signups: Table, teams: seq<Team>, j: nat, p: Nick, c: ClassName)
    requires Partitioned(signups, teams) && j < |teams| && p in NickSet(signups)
    ensures Partitioned(Without(signups, {p}), teams[j := AddPick(teams[j], p, c)])
    ensures p !in NickSet(Without(signups, {p}))
    ensures p in Members(AddPick(teams[j], p, c))
    ensures forall i :: 0 <= i < |teams| && i != j ==> p !in Members(teams[i])
  {
    var teams' := teams[j := AddPick(teams[j], p, c)];
    var rest := Without(signups, {p});
    forall i | 0 <= i < |teams'|
      ensures Members(teams'[i]) !! NickSet(rest)
    {
    }
    forall i, k | 0 <= i < k < |teams'|
      ensures Members(teams'[i]) !! Members(teams'[k])
    {
      assert Members(teams[i]) !! Members(teams[k]);
      assert p !in Members(teams[i]) && p !in Members(teams[k]);
    }
  }

  /** Electing a signed-up player captain of a new, empty team keeps the
      partition. */
  lemma NewCaptainKeepsPartition(signups: Table, teams: seq<Team>, captain: Nick, details: nat)
    requires Partitioned(signups, teams) && captain in NickSet(signups)
    ensures Partitioned(Without(signups, {captain}), teams + [Team(captain, details, map[])])
  {
    var teams' := teams + [Team(captain, details, map[])];
    var rest := Without(signups, {captain});
    assert Members(Team(captain, details, map[])) == {captain};
    forall i | 0 <= i < |teams'|
      ensures Members(teams'[i]) !! NickSet(rest)
    {
      if i < |teams| {
        assert teams'[i] == teams[i];
      }
    }
    forall i, k | 0 <= i < k < |teams'|
      ensures Members(teams'[i]) !! Members(teams'[k])
    {
      if k < |teams| {
        assert teams'[i] == teams[i] && teams'[k] == teams[k];
      } else {
        assert teams'[i] == teams[i];
        assert Members(teams[i]) !! NickSet(signups);
      }
    }
  }

  /** What holds after electing the captains `teams` one by one from `pool`,
      the captain pool of `signups`: `possible` holds the candidates left, enough
      for the teams still to come, and `rest` the signups left. */
  ghost predicate Electing(signups: Table, pool: seq<Nick>, teams: seq<Team>, rest: Table,
                           possible: seq<Nick>, count: nat)
  {
    && |possible| + |teams| >= count
    && Distinct(possible)
    && (forall n :: n in possible ==> n in NickSet(rest) && n in pool)
    && (forall k :: 0 <= k < |teams| ==> teams[k] == Team(teams[k].captain, k, map[]) && teams[k].captain in pool)
    && UniqueNicks(rest) && Partitioned(rest, teams)
    && rest == Without(signups, Captains(teams))
  }

  /** Electing one more candidate captain of a new team, numbered after the
      others, and deleting them from the signups keeps `Electing`. */
  lemma ElectOne(signups: Table, pool: seq<Nick>, teams: seq<Team>, rest: Table,
                 possible: seq<Nick>, count: nat, idx: nat)
    requires Electing(signups, pool, teams, rest, possible, count) && idx < |possible|
    ensures Electing(signups, pool, teams + [Team(possible[idx], |teams|, map[])],
                     Without(rest, {possible[idx]}), RemoveAt(possible, idx), count)
  {
    var captain := possible[idx];
    var team := Team(captain, |teams|, map[]);
    var teams' := teams + [team];
    WithoutMore(signups, Captains(teams), captain);
    NewCaptainKeepsPartition(rest, teams, captain, |teams|);
    CaptainsAppend(teams, team);
    assert forall k :: 0 <= k < |teams| ==> teams'[k] == teams[k];
  }

  /** The class `update_captains` gives a captain: the first key of the team's
      needed-classes hash, or nil when it is empty. */
  function CaptainClass(needed: Needed): (r: Option<ClassName>)
    ensures r.Some? <==> needed != []
    ensures r.Some? ==> HasKey(needed, r.value)
  {
    if needed == [] then None else Some(needed[0].0)
  }

  /** The team once its captain has been entered with their class. */
  function WithCaptainClass(t: Team, neededOf: Team -> Needed): (r: Team)
    ensures Members(r) == Members(t) && r.captain == t.captain && r.details == t.details
    ensures t.captain in r.signups && r.signups[t.captain] == CaptainClass(neededOf(t))
    ensures forall n :: n in t.signups && n != t.captain ==> n in r.signups && r.signups[n] == t.signups[n]
  {
    t.(signups := t.signups[t.captain := CaptainClass(neededOf(t))])
  }

  /** The rosters `update_captains` produces, team by team. */
  function CaptainsAssigned(teams: seq<Team>, neededOf: Team -> Needed): (r: seq<Team>)
    ensures |r| == |teams|
    ensures forall i :: 0 <= i < |r| ==> r[i] == WithCaptainClass(teams[i], neededOf)
  {
    seq(|teams|, i requires 0 <= i < |teams| => WithCaptainClass(teams[i], neededOf))
  }
}
