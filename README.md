# TF2 pick-up-game bot: draft, lifecycle, signups and message dispatch

This project models the core of an IRC bot that runs Team Fortress 2 pick-up
games (pugs). Players add themselves for classes. Once enough have added, the
bot checks who is AFK, waits for a short delay and elects one captain per team
from those who added as captain. The captains then take turns picking players
into class slots. The last pick finishes the draft, and the captains are given
the class their team still needs. All chat output goes through a queue that a
pool of bots drains round-robin.

The model has seven modules:

- `StateLogic` (state_logic.dfy) covers the lifecycle states and their order,
  `picking?`, `can_add?`, `can_remove?` and the AFK filter `check_afk`.
- `Picking` (picking.dfy) holds the value-level part of the draft:
  - the signup table and team records;
  - the three pick-order policies;
  - name and number lookup of the player a captain names;
  - the ordered checks of `pick_player`;
  - the proof that every player sits in exactly one place: still signed up, or on one team.
- `PugBot` (pug.dfy) is the bot object that both `PickingLogic` and
  `StateLogic` are mixed into. It is a class `Pug` whose fields are `@state`,
  `@afk`, `@signups`, `@teams`, `@pick` and `@lookup`, and whose methods are the
  transitions and the draft steps. Its invariant `Valid` says three things:
  - teams exist exactly while picking, one per configured team;
  - signed-up nicks are unique;
  - no player is both signed up and on a team, or on two teams.
- `Manager` (manager.dfy) is `BotManager`: the FIFO message queue and the bot
  pool that rotates after each send. The lemma `RoundRobinWindow` proves the
  rotation is fair: any `|bots|` consecutive sends go through every bot of the
  pool once.
- `Signup` (signup.dfy) is `SignupLogic` over the current match, with the
  database abstracted. It covers adding, removing and replacing players, and
  the "classes needed" arithmetic.
- `Text` (text.dfy) holds the string helpers these modules need: ASCII
  `downcase`, and Ruby's `to_i` on decimal strings.
- `Wrappers` (wrappers.dfy) holds `Option` and `Result`, which stand for
  Ruby's `nil` and for an early `return notice(...)`.

Where the source calls into code outside this model, the model takes a
parameter or a constant function instead:

- `minimum_players?` becomes a `Table -> bool`;
- the presence data that `user.refresh` reports becomes a `Nick -> Presence`;
- `classes_needed(team.get_classes)` becomes a `Team -> Needed`;
- `rand` becomes a nondeterministic choice;
- `Match.last_pug`'s `can_add?` and `can_remove?` become fields of `Signup.Match`;
- `User.find_player` becomes a map from nicks to user ids.

In these places the model follows the code literally:

- **Unknown users.** `check_afk` keeps unknown users on the AFK list
  (stateLogic.rb:29-31), on every pass (`StateLogic.UnknownIsKept`).
- **Order of the pick checks.** `pick_player` resolves the target player and
  only then checks the class (src/logic/picking.rb:82-91).
- **No separate end state.** `final_pick` goes straight back to waiting through
  `end_picking`.
- **One signup table.** stateLogic.rb deletes AFK players from `@players`,
  while the draft reads `@signups`. Both are taken to be the one signup table.
- **The AFK list.** `attempt_afk` checks `@afk`, as written, and not the signups.

Several lines of the source cannot run as written. The model follows what each
evidently means and says so in a comment at the place it models:

| source | as written | modelled as |
|---|---|---|
| stateLogic.rb:9 | `state_waiting` | `State_waiting` |
| stateLogic.rb:31 | `p.idle`, which is `Kernel#p` | the user's idle time |
| stateLogic.rb:45 | `each_key` on an array | `each` |
| stateLogic.rb:68 | `@loopup` | `@lookup` |
| signup.rb:13 and :19 | `user`, before it is assigned | the player |
| signup.rb:21 | `user = User.find_player(player) or User.create_user(player)`, which binds `user` before the `or`, so a new player's created record is dropped | the record found or created |
| signup.rb:41 | `nick` and `match`, before they are assigned | the player and `Match.last_pug` |
| signup.rb:95 | `classes_needed`, without its argument | `classes_needed(match)` |

`staggered` keeps its formula for every team count. `StaggeredThreeTeams`
shows the uneven order it gives for three teams. Source paths below are
relative to the repository root.

## Model

| member | source | states |
|---|---|---|
| StateLogic.IsPicking | stateLogic.rb:76-78 | `picking?` holds exactly in the state that no state outranks, the last of the lifecycle |
| StateLogic.CanAdd | stateLogic.rb:80-82 | adding is allowed exactly in waiting, afk and delay, i.e. before picking |
| StateLogic.CanRemove | stateLogic.rb:84-86 | removing is allowed exactly when not picking |
| StateLogic.CheckAfk | stateLogic.rb:28-33 | a user is kept iff listed and not (found and idle within the threshold); never longer than the list |
| StateLogic.SecondPassNarrows | stateLogic.rb:44-45 | those removed after the second pass failed both passes and were on the AFK list |
| StateLogic.UnknownIsKept | stateLogic.rb:31 | an unknown user is always considered AFK, whatever the idle time |
| PugBot.Pug.CurrentCaptain | src/logic/picking.rb:180-182 | the current captain is the captain of one of the teams |
| PugBot.Pug.AttemptAfk | stateLogic.rb:8-17 | no change unless waiting with the minimum met; otherwise the AFK list is cleared, users failing both checks are deleted from the signups, then the draft starts if the minimum still holds, else back to waiting with no teams, pick count 0 and the lookup kept |
| PugBot.Pug.AttemptPicking | stateLogic.rb:19-26 | the draft starts from the current signups iff the minimum holds; otherwise waiting with nothing else changed |
| PugBot.Pug.StartAfk | stateLogic.rb:35-49 | the signups lose exactly the users the second check confirms as AFK, keeping their order; the AFK list is emptied |
| PugBot.Pug.StartDelay | stateLogic.rb:51-56 | the state becomes delay |
| PugBot.Pug.StartPicking | stateLogic.rb:58-64 | picking starts: lookup over all signups, one fresh team per configured team with a captain who added as captain, captains removed from the signups, the partition holds |
| PugBot.Pug.EndPicking | stateLogic.rb:66-74 | teams and lookup emptied, pick count 0, waiting; signups untouched |
| PugBot.Pug.UpdateLookup | src/logic/picking.rb:29-32 | the lookup maps exactly 1..n to the n signups in order, and 0 to nobody |
| PugBot.Pug.ChooseCaptains | src/logic/picking.rb:8-27 | count teams with details index i and no picks, each captain added as captain, distinct captains removed from the signups, no player in two places |
| PugBot.Pug.PickPlayer | src/logic/picking.rb:77-99 | refuses exactly as `PickVerdict` does and changes nothing then; on success the player leaves the signups, joins the current team under the lowercased class, the AFK list is kept, and the next captain is prompted or the draft ends with the rosters |
| PugBot.Pug.ApplyPick | src/logic/picking.rb:93-98 | the picked player moves from the signups onto the team whose turn it is, keeping the partition, then `next_pick` |
| PugBot.Pug.NextPick | src/logic/picking.rb:101-109 | the pick count goes up; at `total - count` picks the draft ends and the rosters are the teams with captains assigned, otherwise the captain of the next team in pick order is prompted |
| PugBot.Pug.FinalPick | src/logic/picking.rb:111-123 | corrected order: the rosters are the teams with each captain given a class, then the draft state is reset to waiting |
| PugBot.Pug.FinalPickAsWritten | src/logic/picking.rb:111-113 | in the source's order the rosters are empty although count teams existed; signups and AFK list kept |
| PugBot.Pug.UpdateCaptains | src/logic/picking.rb:125-129 | each team gets its captain entered with the first class it still needs (None when none is), all else kept |
| Picking.Without | src/logic/picking.rb:19 | deleting nicks keeps exactly the other signups, removes the deleted nicks and keeps nicks unique |
| Picking.WithoutAppend | src/logic/picking.rb:19 | deleting distributes over concatenation, so the remaining signups keep their relative order; with `WithoutOne`, which settles a single signup, this fixes the order `Without` keeps |
| Picking.WithoutOne | src/logic/picking.rb:19 | a single signup is kept exactly when its nick is not deleted |
| Picking.ClassPool | src/logic/picking.rb:9 | the pool for a class holds only signed-up nicks, each once |
| Picking.ClassPoolMembers | src/logic/picking.rb:9 | a nick is in a class's pool iff its signup lists that class |
| Picking.RemoveAt | src/logic/picking.rb:12 | `delete_at` removes exactly one element and, without duplicates, the removed one is gone |
| Picking.Sequential | src/logic/picking.rb:192-195 | the team index is below the team count |
| Picking.Staggered | src/logic/picking.rb:197-201 | the team index is below the team count |
| Picking.Hybrid | src/logic/picking.rb:203-208 | the team index is below the team count |
| Picking.PickFormat | src/logic/picking.rb:188-190 | the policy in use yields a valid team index |
| Picking.StaggeredTwoTeams | src/logic/picking.rb:197-200 | with two teams the order repeats 0 1 1 0 |
| Picking.HybridTwoTeams | src/logic/picking.rb:203-207 | with two teams the order is 0 1 0 1, then repeats 1 0 0 1 |
| Picking.TwoTeamsShareEvenly | src/logic/picking.rb:197-200 | with two teams each block of four picks gives each team two |
| Picking.StaggeredThreeTeams | src/logic/picking.rb:198-200 | with three teams the order starts 0 0 1 1 1 2 2 2 0 |
| Picking.CurrentTeam | src/logic/picking.rb:184-186 | the current team is one of the teams |
| Picking.CanPick | src/logic/picking.rb:60-62 | only a captain of one of the teams may ever pick |
| Picking.CanPickOnTurn | src/logic/picking.rb:60-62 | with distinct captains, a team's captain may pick exactly on the picks the pick order gives that team |
| Picking.PartitionedCaptains | src/logic/picking.rb:8-19 | rosters that keep every player in one place have distinct captains |
| Picking.TwoCaptainsPickTwiceInFour | src/logic/picking.rb:60-62 | with two teams, each captain may pick exactly on the picks `staggered` gives their team, two in every four |
| Picking.FindPlayer | src/logic/picking.rb:64-67 | the first nick equal to the query up to case; none iff no nick matches |
| Picking.PickTarget | src/logic/picking.rb:82-88 | a name match up to case picks the first matching signup; otherwise a positive lookup number picks that player if still signed up and is refused as already picked if not; otherwise not found |
| Picking.PickByNumber | src/logic/picking.rb:85 | typing the decimal number of a signed-up player's lookup entry picks that player |
| Picking.PickVerdict | src/logic/picking.rb:69-91 | the refusals come in the order not picking, not your turn, target not found or already picked, invalid class, class full; a pick passing every check is accepted, with the target player and the lowercased class |
| Picking.AddPick | src/logic/picking.rb:93 | the team gains exactly the player, under the class; captain, details and every other pick kept |
| Picking.PickKeepsPartition | src/logic/picking.rb:93-94 | moving a signed-up player onto one team keeps every player in exactly one place |
| Picking.NewCaptainKeepsPartition | src/logic/picking.rb:14-19 | electing a signed-up captain of a new empty team keeps every player in exactly one place |
| Picking.ElectOne | src/logic/picking.rb:11-19 | electing one more candidate keeps the captains distinct, drawn from the captain pool, numbered in order, out of the signups, and enough candidates left for the remaining teams |
| Picking.CaptainClass | src/logic/picking.rb:127 | a class is given iff one is still needed, and it is one of the needed ones |
| Picking.WithCaptainClass | src/logic/picking.rb:127 | the captain is entered with that class; other picks and members unchanged |
| Picking.CaptainsAssigned | src/logic/picking.rb:125-129 | every team, in order, with its captain's class assigned |
| Text.Lower | src/logic/picking.rb:65 | `downcase` maps each ASCII capital to its lower-case letter and keeps every other character |
| Text.ToIDecimal | src/logic/picking.rb:85 | `to_i` reads back the number a lookup index prints as |
| Manager.BotManager.constructor | lib/tf2pug/bot/manager.rb:8-11 | the pool and the queue start empty |
| Manager.BotManager.Add | lib/tf2pug/bot/manager.rb:13-15 | the bot is appended unless already pooled; the pool never holds a bot twice |
| Manager.BotManager.Quit | lib/tf2pug/bot/manager.rb:17-20 | every pooled bot is told to quit, in order, and the pool is emptied |
| Manager.BotManager.Msg | lib/tf2pug/bot/manager.rb:22-24 | one entry is queued at the back |
| Manager.BotManager.Notice | lib/tf2pug/bot/manager.rb:26-28 | one notice entry is queued at the back |
| Manager.BotManager.Step | lib/tf2pug/bot/manager.rb:31-41 | the front entry is sent by the front bot, which rotates to the back; with an empty queue nothing changes |
| Manager.BotManager.Start | lib/tf2pug/bot/manager.rb:30-43 | with an empty pool nothing is sent; otherwise entries leave in queue order, entry i through bot i mod the pool size, and the pool ends rotated once per send |
| Manager.Rotate | lib/tf2pug/bot/manager.rb:34 | the front bot moves to the back; the pool keeps its bots |
| Manager.RotateKeepsNoDuplicates | lib/tf2pug/bot/manager.rb:34 | rotating the pool never puts a bot in it twice |
| Manager.RotateBy | lib/tf2pug/bot/manager.rb:34 | repeated rotation keeps the pool's bots |
| Manager.RotateFullCycle | lib/tf2pug/bot/manager.rb:34 | after as many sends as bots, the pool is back in its first order |
| Manager.RoundRobinWindow | lib/tf2pug/bot/manager.rb:30-43 | any window of pool-size consecutive sends uses the pool rotated to the window's start, so each bot sends once |
| Signup.PugClasses | lib/tf2pug/logic/signup.rb:10 | exactly the classes with `pug >= 1` |
| Signup.Names | lib/tf2pug/logic/signup.rb:11 | the class names, position by position |
| Signup.LowerAll | lib/tf2pug/logic/signup.rb:15 | each requested name is lowercased in place |
| Signup.Uniq | lib/tf2pug/logic/signup.rb:16 | the same names, each once |
| Signup.Normalise | lib/tf2pug/logic/signup.rb:15-16 | the request holds each lowercased name once, and nothing else |
| Signup.CaptainFilter | lib/tf2pug/logic/signup.rb:25-28 | "captain" is dropped iff the user has fewer games than the captain minimum |
| Signup.Delete | lib/tf2pug/logic/signup.rb:27 | every occurrence of the name is removed, nothing else |
| Signup.Select | lib/tf2pug/logic/signup.rb:30 | exactly the pug classes whose names were requested |
| Signup.SelectAppend | lib/tf2pug/logic/signup.rb:30 | selecting distributes over concatenation, so the chosen classes keep table order |
| Signup.Requested | lib/tf2pug/logic/signup.rb:10-30 | a class is signed up for iff it is a pug class, requested up to case, and not "captain" for a user below the captain minimum |
| Signup.GamesNeeded | lib/tf2pug/logic/signup.rb:26 | the corrected count: positive whenever the notice is sent, and played plus needed equals the minimum |
| Signup.GamesNeededSign | lib/tf2pug/logic/signup.rb:26 | the count as written is negative whenever the notice is sent, the opposite of the games needed |
| Signup.WithoutUser | lib/tf2pug/logic/signup.rb:36 | all of the user's signups go, every other stays; one signup per user is kept |
| Signup.Readded | lib/tf2pug/logic/signup.rb:36-37 | the user ends with exactly one signup, with the chosen classes; other users' signups are kept |
| Signup.Reassign | lib/tf2pug/logic/signup.rb:62 | the old user's signups pass to the new user with their classes; others unchanged |
| Signup.ReassignKeepsOnePerUser | lib/tf2pug/logic/signup.rb:62 | replacing with a user who has no signup keeps one signup per user |
| Signup.ReassignCanDuplicate | lib/tf2pug/logic/signup.rb:62 | replacing with a user who already added leaves them two signups |
| Signup.CountWith | lib/tf2pug/logic/signup.rb:86 | the count is the number of signup positions whose classes list the class |
| Signup.ClassesNeeded | lib/tf2pug/logic/signup.rb:85-89 | a pug class is listed iff twice its per-team count exceeds its signups, with the shortfall as its count |
| Signup.PlayerReqCountsUsers | lib/tf2pug/logic/signup.rb:97 | with one signup per user the players-needed count subtracts the number of distinct users |
| Signup.ListClassesNeeded | lib/tf2pug/logic/signup.rb:91-101 | no message unless adding or removing is allowed; otherwise the classes needed, and the players needed iff positive |
| Signup.Match.AddUser | lib/tf2pug/logic/signup.rb:9-38 | refuses for no classes, restricted user, no valid class, or adding closed, in that order, changing nothing; warns when unauthorized and when a captain request lacks games; on success the user has one signup with the requested classes |
| Signup.Match.RemoveUser | lib/tf2pug/logic/signup.rb:40-50 | refuses when removing is closed, the user is unknown or adding is closed; otherwise exactly that user's signups are destroyed |
| Signup.Match.ReplacePlayer | lib/tf2pug/logic/signup.rb:52-63 | refuses when removing is closed or either user is unknown; otherwise the old user's signups pass to the new user |

## Left out

- Chat output is not modelled: the text of messages and notices, colours, `tell_captain`, `list_captain`, `print_teams`, `announce_teams` and `list_format`. `NextStep` names only the captain who is prompted next and the final rosters.
- `pick_random` (src/logic/picking.rb:53-58) is left out. It picks a random player of a class through `pick_player`, which is modelled.
- Persistence is left out: `create_match`, `create_player_record`, `create_stat_record`, the saving of teams and the database queries behind signups and users. `signup.rb` works on an in-memory `Match`.
- `start_server`, `announce_server`, `end_game` and `list_players` are called by `final_pick` but defined in files that are not part of this model.
- `minimum_players?`, `get_classes` beyond its pool of nicks, `classes_needed(team.get_classes)` and `Team#my_colourize` are defined in files that are not part of this model. They are parameters or a constant function here.
- The `Team` class (lib/tf2pug/model/team.rb) is modelled as a value held in the `teams` sequence, so aliasing of team objects is not captured.
- Sleeps and pacing are left out: `Afk_delay`, `Picking_delay`, and the floating-point send interval and idle poll in manager.rb:38-40.
- Manager.BotManager.Start: the endless `while` loop is modelled for a bounded number of passes, `ticks`. Messages queued by other code while the loop runs are not modelled.
- `include Singleton` on `BotManager` is not modelled; there can be any number of instances.
- `list_signups` and `list_signups_delay` only format a message, and are left out.
- Text.Lower folds ASCII letters only, where Ruby's `downcase` also folds other Unicode letters.
- Text.ToIDecimal: `to_i` is modelled on whitespace, sign and decimal digits; the underscores Ruby allows between digits are not modelled.
- PugBot.Pug.AttemptAfk requires that `minimum_players?` implies at least one player per team added as captain. With fewer, the source calls `delete_at rand(0)` and builds a team with a nil captain, which is not modelled. The same holds for PugBot.Pug.AttemptPicking, PugBot.Pug.StartPicking and PugBot.Pug.ChooseCaptains.
- PugBot.Pug.AttemptAfk does not model players adding or leaving during the AFK grace window.
- Signup.Match.ReplacePlayer does not stop the new user from ending with two signups when they had already added. The source does not stop it either (`ReassignCanDuplicate`).

## Findings

| source | as written | input that shows it | evidently intended | confidence | as-written member | corrected member |
|---|---|---|---|---|---|---|
| lib/tf2pug/logic/signup.rb:26 | the notice reports `total - Constants.captain['min']` more games | a user with 3 games asking for captain with a minimum of 10 is told they need -7 more games | `min - total`, the games still needed (7) | high, not executed | Signup.GamesNeededSign | Signup.GamesNeeded |
| src/logic/picking.rb:111-113 | `final_pick` calls `end_picking` (labelled `logic/state.rb`, not part of this model; the one in stateLogic.rb:66-74 is assumed), which clears `@teams`, before `update_captains`, `print_teams` and `create_match` | any draft that reaches its last pick: the teams are empty when captains are given classes and rosters are printed and recorded | give the captains their classes and use the rosters before resetting the draft | medium, not executed | PugBot.Pug.FinalPickAsWritten | PugBot.Pug.FinalPick |
