/** lib/tf2pug/logic/signup.rb: adding to, leaving and replacing in the current
    pug's signups, and the arithmetic of the "classes needed" summary. The
    database is abstracted: `Tfclass.all` is a sequence of class rows,
    `User.find_player` a map from nicks to user ids, the user found or created
    for `add_user` a `UserInfo`, and `Match.last_pug` an object of class
    `Match` whose signups the operations rewrite. */
module Signup {
  import opened Wrappers
  import opened Text

  /** A `Tfclass` row: its name and `pug`, the number of players per team the
      class takes in a pug (0 for classes that are not played). */
  datatype TfClass = TfClass(name: ClassName, pug: int)

  type UserId = nat

  /** What the user record says: its id, whether it is restricted, and the total
      number of games it has been picked for (`user.picks.total(:tfclass)`). */
  datatype UserInfo = UserInfo(id: UserId, restricted: bool, gamesPlayed: int)

  /** One signup of the match: the user and the classes they added for. */
  datatype SignupRow = SignupRow(user: UserId, classes: seq<TfClass>)

  /** The notices sent while adding that do not stop the add. */
  datatype Warning = NotAuthorized | NeedMoreGames(games: int)

  /** The notices that end an operation without changing the signups. */
  datatype Refusal =
    | NoClassesEntered(options: seq<ClassName>)
    | Restricted
    | InvalidClasses(options: seq<ClassName>)
    | CannotAdd
    | CannotRemove
    | CannotChange
    | UnknownUser(nick: Nick)

  const Captain: ClassName := "captain"

  // ---------------------------------------------------------------------------
  // The pug classes and the requested class list

  /** `Tfclass.all(:pug.gte => 1)`: the pug-friendly classes, in table order. */
  function PugClasses(all: seq<TfClass>): (r: seq<TfClass>)
    ensures forall c :: c in r <==> c in all && c.pug >= 1
  {
    if all == [] then []
    else if all[0].pug >= 1 then [all[0]] + PugClasses(all[1..])
    else PugClasses(all[1..])
  }

  /** `tfclasses.collect { |tf| tf.name }` */
  function Names(cs: seq<TfClass>): (r: seq<ClassName>)
    ensures |r| == |cs| && forall i :: 0 <= i < |cs| ==> r[i] == cs[i].name
  {
    if cs == [] then [] else [cs[0].name] + Names(cs[1..])
  }

  /** `classes.collect! { |name| name.downcase }` */
  function LowerAll(classes: seq<string>): (r: seq<string>)
    ensures |r| == |classes| && forall i :: 0 <= i < |r| ==> r[i] == Lower(classes[i])
  {
    if classes == [] then [] else [Lower(classes[0])] + LowerAll(classes[1..])
  }

  ghost predicate NoRepeats(s: seq<string>)
  {
    forall i, j :: 0 <= i < j < |s| ==> s[i] != s[j]
  }

  /** `uniq!`: keep the first occurrence of each name. */
  function Uniq(s: seq<string>): (r: seq<string>)
    ensures forall x :: x in r <==> x in s
    ensures NoRepeats(r) && |r| <= |s|
  {
    if s == [] then []
    else
      var u := Uniq(s[..|s| - 1]);
      var x := s[|s| - 1];
      assert s == s[..|s| - 1] + [x];
      if x in u then u else u + [x]
  }

  /** The request after `collect!` and `uniq!`: every name lowercased, each
      once, and nothing else. */
  function Normalise(classes: seq<string>): (r: seq<string>)
    ensures NoRepeats(r)
    ensures forall x :: x in r <==> exists c :: c in classes && x == Lower(c)
  {
    var low := LowerAll(classes);
    assert forall c :: c in classes ==> Lower(c) in low by {
      forall c | c in classes
        ensures Lower(c) in low
      {
        var i :| 0 <= i < |classes| && classes[i] == c;
        assert low[i] == Lower(c);
      }
    }
    Uniq(low)
  }

  /** `classes.delete("captain")` when the user has played fewer games than
      the captain minimum; otherwise the request is kept. */
  function CaptainFilter(classes: seq<string>, gamesPlayed: int, captainMin: int): (r: seq<string>)
    ensures forall x :: x in r <==> x in classes && (x == Captain ==> gamesPlayed >= captainMin)
  {
    if Captain in classes && gamesPlayed < captainMin then Delete(classes, Captain) else classes
  }

  /** `Array#delete`: drop every occurrence. */
  function Delete(s: seq<string>, x: string): (r: seq<string>)
    ensures forall y :: y in r <==> y in s && y != x
  {
    if s == [] then []
    else if s[0] == x then Delete(s[1..], x)
    else [s[0]] + Delete(s[1..], x)
  }

  /** Selecting from a list split in two selects from each part, so the classes
      kept stay in table order. */
  lemma {:induction false} SelectAppend(a: seq<TfClass>, b: seq<TfClass>, names: seq<string>)
    ensures Select(a + b, names) == Select(a, names) + Select(b, names)
  {
    if a == [] {
      assert a + b == b;
    } else {
      var ab := a + b;
      assert ab[0] == a[0] && ab[1..] == a[1..] + b;
      SelectAppend(a[1..], b, names);
      if a[0].name in names {
        calc {
          Select(ab, names);
          [a[0]] + Select(a[1..] + b, names);
          [a[0]] + (Select(a[1..], names) + Select(b, names));
          ([a[0]] + Select(a[1..], names)) + Select(b, names);
        }
      } else {
        assert Select(ab, names) == Select(a[1..] + b, names);
        assert Select(a, names) == Select(a[1..], names);
      }
    }
  }

  /** `tfclasses.select { |tf| classes.include?(tf.name) }`: the pug classes
      whose names were asked for, in table order. */
  function Select(pug: seq<TfClass>, names: seq<string>): (r: seq<TfClass>)
    ensures forall c :: c in r <==> c in pug && c.name in names
    ensures |r| <= |pug|
  {
    if pug == [] then []
    else if pug[0].name in names then [pug[0]] + Select(pug[1..], names)
    else Select(pug[1..], names)
  }

  /** The classes `add_user` signs the user up for: the pug classes asked for,
      up to case, leaving out "captain" for users below the captain minimum. */
  function Requested(all: seq<TfClass>, classes: seq<string>, gamesPlayed: int, captainMin: int): (r: seq<TfClass>)
    ensures forall c :: c in r <==>
              && c in all && c.pug >= 1
              && (exists x :: x in classes && c.name == Lower(x))
              && (c.name == Captain ==> gamesPlayed >= captainMin)
  {
    Select(PugClasses(all), CaptainFilter(Normalise(classes), gamesPlayed, captainMin))
  }

  /** How many more games the user needs before adding as captain, the number
      the notice is meant to give. */
  function GamesNeeded(gamesPlayed: int, captainMin: int): (r: int)
    ensures gamesPlayed < captainMin ==> r > 0
    ensures gamesPlayed + r == captainMin
  {
    captainMin - gamesPlayed
  }

  /** The same number as the source computes it, `total - Constants.captain['min']`. */
  function GamesNeededAsWritten(gamesPlayed: int, captainMin: int): int
  {
    gamesPlayed - captainMin
  }

  /** Whenever the notice is sent (fewer games than the minimum), the number
      the source puts in it is negative: the opposite of the games still needed. */
  lemma GamesNeededSign(gamesPlayed: int, captainMin: int)
    requires gamesPlayed < captainMin
    ensures GamesNeededAsWritten(gamesPlayed, captainMin) < 0 < GamesNeeded(gamesPlayed, captainMin)
    ensures GamesNeededAsWritten(gamesPlayed, captainMin) == -GamesNeeded(gamesPlayed, captainMin)
  {
  }

  // ---------------------------------------------------------------------------
  // Signup rows

  /** Each user has at most one signup. */
  ghost predicate OnePerUser(rows: seq<SignupRow>)
  {
    forall i, j :: 0 <= i < j < |rows| ==> rows[i].user != rows[j].user
  }

  function Users(rows: seq<SignupRow>): set<UserId>
  {
    set r | r in rows :: r.user
  }

  /** `match.signups.all(:user => user).destroy` */
  function WithoutUser(rows: seq<SignupRow>, u: UserId): (r: seq<SignupRow>)
    ensures forall x :: x in r <==> x in rows && x.user != u
    ensures OnePerUser(rows) ==> OnePerUser(r)
    ensures u !in Users(r) && Users(r) == Users(rows) - {u}
  {
    if rows == [] then []
    else if rows[0].user == u then WithoutUser(rows[1..], u)
    else
      var rest := WithoutUser(rows[1..], u);
      assert Users(rows) == {rows[0].user} + Users(rows[1..]);
      assert Users([rows[0]] + rest) == {rows[0].user} + Users(rest);
      assert OnePerUser(rows) ==> rows[0].user !in Users(rows[1..]);
      [rows[0]] + rest
  }

  /** The signups after `add_user` succeeds: the user's earlier signups
      destroyed and one new signup created. */
  function Readded(rows: seq<SignupRow>, u: UserId, classes: seq<TfClass>): (r: seq<SignupRow>)
    ensures OnePerUser(rows) ==> OnePerUser(r)
    ensures exists i :: 0 <= i < |r| && r[i] == SignupRow(u, classes) &&
                        forall j :: 0 <= j < |r| && j != i ==> r[j].user != u
    ensures forall x :: x in r && x.user != u <==> x in rows && x.user != u
  {
    var rest := WithoutUser(rows, u);
    var r := rest + [SignupRow(u, classes)];
    assert forall j :: 0 <= j < |rest| ==> rest[j] in rest;
    assert r[|rest|] == SignupRow(u, classes);
    r
  }

  /** `match.signups.all(:user => old).update(:user => new)` */
  function Reassign(rows: seq<SignupRow>, from: UserId, to: UserId): (r: seq<SignupRow>)
    ensures |r| == |rows|
    ensures forall i :: 0 <= i < |rows| ==>
              r[i].classes == rows[i].classes &&
              r[i].user == (if rows[i].user == from then to else rows[i].user)
  {
    if rows == [] then []
    else [if rows[0].user == from then rows[0].(user := to) else rows[0]] + Reassign(rows[1..], from, to)
  }

  /** Reassigning to a user who has no signup keeps one signup per user. */
  lemma ReassignKeepsOnePerUser(rows: seq<SignupRow>, from: UserId, to: UserId)
    requires OnePerUser(rows) && to !in Users(rows)
    ensures OnePerUser(Reassign(rows, from, to))
  {
    var r := Reassign(rows, from, to);
    forall i, j | 0 <= i < j < |r|
      ensures r[i].user != r[j].user
    {
      assert rows[i] in rows && rows[j] in rows;
    }
  }

  /** Reassigning to a user who has already added leaves that user with two
      signups. */
  lemma ReassignCanDuplicate()
    ensures var rows := [SignupRow(1, []), SignupRow(2, [])];
            OnePerUser(rows) && !OnePerUser(Reassign(rows, 1, 2))
  {
    var rows := [SignupRow(1, []), SignupRow(2, [])];
    var r := Reassign(rows, 1, 2);
    assert r[0].user == 2 && r[1].user == 2;
  }

  // ---------------------------------------------------------------------------
  // Classes needed

  /** The positions of the signups that list `tf`. */
  function Listing(rows: seq<SignupRow>, tf: TfClass): set<nat>
  {
    set i: nat | i < |rows| && tf in rows[i].classes
  }

  /** `match.signups.count(:tfclass => tf)`: how many signups list `tf`. */
  function CountWith(rows: seq<SignupRow>, tf: TfClass): (n: nat)
    ensures n == |Listing(rows, tf)| && n <= |rows|
  {
    if rows == [] then
      assert Listing(rows, tf) == {};
      0
    else
      var pre := rows[..|rows| - 1];
      var last := rows[|rows| - 1];
      assert forall i :: 0 <= i < |pre| ==> pre[i] == rows[i];
      assert Listing(rows, tf) == Listing(pre, tf) + (if tf in last.classes then {|pre|} else {});
      CountWith(pre, tf) + (if tf in last.classes then 1 else 0)
  }

  /** `classes_needed`: each pug class paired with `pug * 2` minus the signups
      for it, keeping only the classes still short of players. */
  function ClassesNeeded(all: seq<TfClass>, rows: seq<SignupRow>): (r: seq<(TfClass, int)>)
    ensures forall e :: e in r <==>
              e.0 in all && e.0.pug >= 1 && e.1 == e.0.pug * 2 - CountWith(rows, e.0) && e.1 > 0
  {
    if all == [] then []
    else
      var tf := all[0];
      var need := tf.pug * 2 - CountWith(rows, tf);
      var rest := ClassesNeeded(all[1..], rows);
      if tf.pug >= 1 && need > 0 then [(tf, need)] + rest else rest
  }

  /** `Tfclass.sum(:pug)`: the players per team over all classes. */
  function SumPug(all: seq<TfClass>): int
  {
    if all == [] then 0 else all[0].pug + SumPug(all[1..])
  }

  /** `player_req`: the players still needed for two teams, less one slot per
      team (the two captains' last slots are not counted), after the users
      already signed up. */
  function PlayerReq(all: seq<TfClass>, rows: seq<SignupRow>): int
  {
    (SumPug(all) - 1) * 2 - |rows|
  }

  /** With one signup per user, the number of signups is the number of users
      signed up, so `player_req` counts players rather than rows. */
  lemma {:induction false} OnePerUserCount(rows: seq<SignupRow>)
    requires OnePerUser(rows)
    ensures |Users(rows)| == |rows|
  {
    if rows != [] {
      OnePerUserCount(rows[1..]);
      assert Users(rows) == {rows[0].user} + Users(rows[1..]);
      assert rows[0].user !in Users(rows[1..]);
    }
  }

  lemma PlayerReqCountsUsers(all: seq<TfClass>, rows: seq<SignupRow>)
    requires OnePerUser(rows)
    ensures PlayerReq(all, rows) == (SumPug(all) - 1) * 2 - |Users(rows)|
  {
    OnePerUserCount(rows);
  }

  /** The message `list_classes_needed` sends: the classes needed and, when
      positive, the number of players needed. */
  datatype Summary = Summary(classes: seq<(TfClass, int)>, players: Option<int>)

  /** `list_classes_needed`: nothing unless adding or removing is allowed. The
      source calls `classes_needed` without the match it requires; the match's
      own signups are meant. */
  function ListClassesNeeded(canAdd: bool, canRemove: bool, all: seq<TfClass>, rows: seq<SignupRow>): (r: Option<Summary>)
    ensures r.Some? <==> canAdd || canRemove
    ensures r.Some? ==> r.value.classes == ClassesNeeded(all, rows)
    ensures r.Some? ==> (r.value.players.Some? <==> PlayerReq(all, rows) > 0)
    ensures r.Some? && r.value.players.Some? ==> r.value.players.value == PlayerReq(all, rows) > 0
  {
    if !(canAdd || canRemove) then None
    else
      var req := PlayerReq(all, rows);
      Some(Summary(ClassesNeeded(all, rows), if req > 0 then Some(req) else None))
  }

  // ---------------------------------------------------------------------------
  // The current pug

  /** `Match.last_pug`: its signups and what its state allows. */
  class Match {
    var signups: seq<SignupRow>
    /** `can_add?` and `can_remove?` of the match. */
    var canAdd: bool
    var canRemove: bool

    constructor (signups: seq<SignupRow>, canAdd: bool, canRemove: bool)
      ensures this.signups == signups && this.canAdd == canAdd && this.canRemove == canRemove
    {
      this.signups := signups;
      this.canAdd := canAdd;
      this.canRemove := canRemove;
    }

    /** `add_user`. `classes` is the request (None when no class was given),
        `all` the `Tfclass` table, `authed` whether the player is authorized
        after the refresh, `user` the record found or created for them. The
        source tests `user.authed?` and sends the first notice to `user` before
        `user` is assigned; the player is meant in both. The source also writes
        `user = User.find_player(player) or User.create_user(player)`, which binds
        `user` before the `or`, so for a player without a record the created
        record is dropped and `user` is nil; the record found or created is
        meant, and that is `user` here. */
    method AddUser(classes: Option<seq<string>>, all: seq<TfClass>, authed: bool, user: UserInfo, captainMin: int)
      returns (result: Result<seq<TfClass>, Refusal>, warnings: seq<Warning>)
      modifies this`signups
      ensures classes.None? ==>
                result == Failure(NoClassesEntered(Names(PugClasses(all)))) && warnings == [] &&
                signups == old(signups)
      ensures classes.Some? ==>
                var request := Normalise(classes.value);
                var chosen := Requested(all, classes.value, user.gamesPlayed, captainMin);
                && warnings ==
                     (if authed then [] else [NotAuthorized]) +
                     (if !user.restricted && Captain in request && user.gamesPlayed < captainMin
                      then [NeedMoreGames(GamesNeeded(user.gamesPlayed, captainMin))] else [])
                && (user.restricted ==> result == Failure(Restricted))
                && (!user.restricted && chosen == [] ==> result == Failure(InvalidClasses(Names(PugClasses(all)))))
                && (!user.restricted && chosen != [] && !canAdd ==> result == Failure(CannotAdd))
                && (!user.restricted && chosen != [] && canAdd ==> result == Success(chosen))
      ensures result.Failure? ==> signups == old(signups)
      ensures result.Success? ==> signups == Readded(old(signups), user.id, result.value)
    {
      var tfclasses := PugClasses(all);
      var tfnames := Names(tfclasses);
      warnings := [];
      if classes.None? {
        return Failure(NoClassesEntered(tfnames)), warnings;
      }
      var request := Normalise(classes.value);
      if !authed {
        warnings := warnings + [NotAuthorized];
      }
      if user.restricted {
        return Failure(Restricted), warnings;
      }
      if Captain in request && user.gamesPlayed < captainMin {
        // The source reports `total - Constants.captain['min']`, which is negative
        // here; the games still needed are meant.
        warnings := warnings + [NeedMoreGames(GamesNeeded(user.gamesPlayed, captainMin))];
      }
      var chosen := Select(tfclasses, CaptainFilter(request, user.gamesPlayed, captainMin));
      if chosen == [] {
        return Failure(InvalidClasses(tfnames)), warnings;
      }
      if !canAdd {
        return Failure(CannotAdd), warnings;
      }
      signups := WithoutUser(signups, user.id) + [SignupRow(user.id, chosen)];
      result := Success(chosen);
    }

    /** `remove_user`: destroy the player's signups. The source tests
        `match.can_remove?` and notifies `nick` before either is assigned; the
        match's own test and the player are meant, so the match is taken first. */
    method RemoveUser(player: Nick, users: map<Nick, UserId>) returns (result: Result<UserId, Refusal>)
      modifies this`signups
      ensures !canRemove ==> result == Failure(CannotRemove)
      ensures canRemove && player !in users ==> result == Failure(UnknownUser(player))
      ensures canRemove && player in users && !canAdd ==> result == Failure(CannotRemove)
      ensures canRemove && player in users && canAdd ==> result == Success(users[player])
      ensures result.Failure? ==> signups == old(signups)
      ensures result.Success? ==> signups == WithoutUser(old(signups), result.value)
    {
      if !canRemove {
        return Failure(CannotRemove);
      }
      if player !in users {
        return Failure(UnknownUser(player));
      }
      var user := users[player];
      if !canAdd {
        return Failure(CannotRemove);
      }
      signups := WithoutUser(signups, user);
      result := Success(user);
    }

    /** `replace_player`: hand the old user's signups to the new user, when
        removing is allowed and both users are known. */
    method ReplacePlayer(playerOld: Nick, playerNew: Nick, users: map<Nick, UserId>)
      returns (result: Result<(UserId, UserId), Refusal>)
      modifies this`signups
      ensures !canRemove ==> result == Failure(CannotChange)
      ensures canRemove && playerOld !in users ==> result == Failure(UnknownUser(playerOld))
      ensures canRemove && playerOld in users && playerNew !in users ==> result == Failure(UnknownUser(playerNew))
      ensures canRemove && playerOld in users && playerNew in users ==>
                result == Success((users[playerOld], users[playerNew]))
      ensures result.Failure? ==> signups == old(signups)
      ensures result.Success? ==> signups == Reassign(old(signups), result.value.0, result.value.1)
    {
      if !canRemove {
        return Failure(CannotChange);
      }
      if playerOld !in users {
        return Failure(UnknownUser(playerOld));
      }
      var userOld := users[playerOld];
      if playerNew !in users {
        return Failure(UnknownUser(playerNew));
      }
      var userNew := users[playerNew];
      signups := Reassign(signups, userOld, userNew);
      result := Success((userOld, userNew));
    }
  }
}
