/** The value-level part of stateLogic.rb: the lifecycle states and their order,
    the predicates defined by that order, and the AFK filter `check_afk`. The
    transitions themselves change the bot's fields and live in `PugBot.Pug`. */
module StateLogic {
  import opened Text

  /** `State_waiting`, `State_afk`, `State_delay`, `State_picking`, in the order
      the lifecycle visits them. */
  datatype State = Waiting | Afk | Delay | Picking {
    /** The integer the source compares with `<`. */
    function Rank(): nat
    {
      match this
      case Waiting => 0
      case Afk => 1
      case Delay => 2
      case Picking => 3
    }
  }

  /** `picking?`: the last state of the lifecycle, the one no state outranks. */
  function IsPicking(s: State): (r: bool)
    ensures r <==> s.Rank() == Picking.Rank()
    ensures r <==> forall t: State :: t.Rank() <= s.Rank()
  {
    s == Picking
  }

  /** `can_add?`: the state comes before picking. */
  function CanAdd(s: State): (r: bool)
    ensures r <==> s != Picking
    ensures r <==> s in {Waiting, Afk, Delay}
  {
    s.Rank() < Picking.Rank()
  }

  /** `can_remove?`: the same ordering test as `can_add?`. */
  function CanRemove(s: State): (r: bool)
    ensures r <==> !IsPicking(s)
  {
    s.Rank() < Picking.Rank()
  }

  /** What `user.refresh` leaves behind for `unknown?` and `idle` (seconds). */
  datatype Presence = Presence(unknown: bool, idle: nat)

  /** The user was found and was active within the threshold: not AFK. */
  predicate Active(p: Presence, threshold: nat)
  {
    !p.unknown && p.idle <= threshold
  }

  /** `check_afk`: keeps, in order, the users who are unknown or idle beyond the
      threshold, and drops the ones found and active. `presence` is the snapshot
      taken by `refresh` during this pass. The source tests `p.idle`, which is
      `Kernel#p` rather than the block's user; the model tests the user's own
      idle time, which is what the comment on that line describes. */
  function CheckAfk(list: seq<Nick>, presence: Nick -> Presence, threshold: nat): (r: seq<Nick>)
    ensures |r| <= |list|
    ensures forall u :: u in r <==> u in list && !Active(presence(u), threshold)
  {
    if list == [] then []
    else if Active(presence(list[0]), threshold) then CheckAfk(list[1..], presence, threshold)
    else [list[0]] + CheckAfk(list[1..], presence, threshold)
  }

  /** A second pass only ever removes names the first pass kept: the confirmed
      set is contained in the warned set. */
  lemma SecondPassNarrows(list: seq<Nick>, first: Nick -> Presence,
                                            second: Nick -> Presence, threshold: nat)
    ensures forall u :: u in CheckAfk(CheckAfk(list, first, threshold), second, threshold) ==>
              u in list && !Active(first(u), threshold) && !Active(second(u), threshold)
  {
  }

  /** A user who is unknown on a pass is always kept by that pass, whatever their
      idle time. */
  lemma UnknownIsKept(list: seq<Nick>, presence: Nick -> Presence, threshold: nat, u: Nick)
    requires u in list && presence(u).unknown
    ensures u in CheckAfk(list, presence, threshold)
  {
  }
}
