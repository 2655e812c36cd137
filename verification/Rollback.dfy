/**
  Rollback of an image snapshot through the global cache: two temporary snapshots are created,
  the cache manager is asked to roll back, and on any failure what was created is removed again.

  Requests answer later, through handlers; `phase` says which answer is awaited. All answers
  are parameters. `snapshots` is what exists, `known` is what the client's image context sees.
 */
module Rollback {

  const ELIBACC: int := 79

  /** The answer to a create request: a failure may leave a snapshot behind, seen by the client or not. */
  datatype Made = Made(result: int, left: bool, seen: bool)

  /** The answer to a remove request: a failure may come after the snapshot is gone. */
  datatype Removed = Removed(result: int, gone: bool)

  /** The answers of one run: whether the plugin loads for create `k`, the name drawn for it and so on. */
  datatype Env = Env(plugin: nat -> bool, names: nat -> string, creates: nat -> Made, rollback: int,
                     removes: nat -> Removed)

  /** The names drawn are new. */
  ghost predicate Fresh(env: Env, snapshots: set<string>) {
    && env.names(1) != "" && env.names(2) != "" && env.names(1) != env.names(2)
    && env.names(1) !in snapshots && env.names(2) !in snapshots
  }

  /** The first error of a run, zero if there is none. */
  function FirstError(env: Env): int {
    if !env.plugin(1) then -ELIBACC
    else if env.creates(1).result < 0 then env.creates(1).result
    else if !env.plugin(2) then -ELIBACC
    else if env.creates(2).result < 0 then env.creates(2).result
    else if env.rollback < 0 then env.rollback
    else 0
  }

  /** The answers that can fail a run, in the order they come; a lost plugin answers `-ELIBACC`. */
  function Answers(env: Env): seq<int> {
    [if env.plugin(1) then 0 else -ELIBACC, env.creates(1).result,
     if env.plugin(2) then 0 else -ELIBACC, env.creates(2).result, env.rollback]
  }

  /** It is the first answer that is negative, if there is one. */
  lemma FirstErrorIs(env: Env)
    ensures FirstError(env) == 0 <==> forall i :: 0 <= i < 5 ==> Answers(env)[i] >= 0
    ensures FirstError(env) < 0 <==> exists i :: IsFirst(env, i)
    ensures forall i :: IsFirst(env, i) ==> FirstError(env) == Answers(env)[i]
  {
    var a := Answers(env);
    var i := if a[0] < 0 then 0 else if a[1] < 0 then 1 else if a[2] < 0 then 2 else if a[3] < 0 then 3 else 4;
    if FirstError(env) < 0 {
      assert IsFirst(env, i);
    }
  }

  predicate IsFirst(env: Env, i: int) {
    0 <= i < 5 && Answers(env)[i] < 0 && forall j :: 0 <= j < i ==> Answers(env)[j] >= 0
  }

  /**
    After a failure past the first create: a removal that fails ends the clean-up, so the second snapshot
    stays if it was made; one that succeeds leads on to the second, which stays if the client cannot see it.
   */
  lemma WhatStays(env: Env)
    requires FirstError(env) < 0 && env.plugin(1) && env.plugin(2) && env.creates(1).result >= 0 && env.names(1) != env.names(2)
    ensures env.names(1) in Leftover(env) <==> env.removes(0).result < 0 && !env.removes(0).gone
    ensures env.names(2) in Leftover(env) <==>
            && (env.creates(2).result >= 0 || env.creates(2).left)
            && (|| env.removes(0).result < 0
                || (env.creates(2).result < 0 && !env.creates(2).seen)
                || (env.removes(1).result < 0 && !env.removes(1).gone))
  {
  }

  function Only(b: bool, name: string): set<string> { if b then {name} else {} }

  /** A remove request takes its snapshot away, whatever it answers. */
  predicate TakesAway(env: Env, k: nat) { env.removes(k).result >= 0 || env.removes(k).gone }

  /** The second create leaves a snapshot, and one the client sees. */
  predicate Second(env: Env) { env.creates(2).result >= 0 || env.creates(2).left }

  predicate SecondSeen(env: Env) { env.creates(2).result >= 0 || (env.creates(2).left && env.creates(2).seen) }

  /** The temporary snapshots that exist when the run is over. */
  function Leftover(env: Env): set<string> {
    var one, two := env.names(1), env.names(2);
    if !env.plugin(1) then {}
    else if env.creates(1).result < 0 then
      Only(env.creates(1).left && !(env.creates(1).seen && TakesAway(env, 0)), one)
    else if !env.plugin(2) then {one}
    else if FirstError(env) >= 0 then {one, two}
    else if env.removes(0).result < 0 then Only(!env.removes(0).gone, one) + Only(Second(env), two)
    else Only(Second(env) && !(SecondSeen(env) && TakesAway(env, 1)), two)
  }

  /** What a failing run has to meet to leave nothing behind. */
  predicate Tidy(env: Env) {
    if !env.plugin(1) then true
    else if env.creates(1).result < 0 then env.creates(1).left ==> env.creates(1).seen && TakesAway(env, 0)
    else
      && env.plugin(2) && TakesAway(env, 0)
      && (Second(env) ==> env.removes(0).result >= 0 && SecondSeen(env) && TakesAway(env, 1))
  }

  /** A failing run leaves no temporary snapshot exactly when it is tidy. */
  lemma LeavesNothingIff(env: Env)
    requires FirstError(env) < 0
    ensures Leftover(env) == {} <==> Tidy(env)
  {
    if Leftover(env) != {} {
      assert env.names(1) in Leftover(env) || env.names(2) in Leftover(env);
    }
  }

  /** The plugin stays loaded, removals succeed and a failed create leaves nothing the client cannot see: that is enough. */
  lemma OrderlyIsTidy(env: Env)
    requires (forall k :: env.plugin(k)) && (forall k :: env.removes(k).result >= 0)
    requires forall k :: env.creates(k).result < 0 && env.creates(k).left ==> env.creates(k).seen
    ensures Tidy(env)
  {
  }

  datatype Phase = Creating | Removing(name: string) | Queued | Refreshing(name1: string, name2: string) | Completed

  class SnapshotRollbackRequest {
    var gcSnapName1: string
    var gcSnapName2: string
    var retVal: int
    var phase: Phase
    var completions: seq<int>
    var snapshots: set<string>
    var known: set<string>
    ghost const base: set<string>

    constructor (snapshots: set<string>)
      ensures this.snapshots == known == base == snapshots
      ensures gcSnapName1 == gcSnapName2 == "" && retVal == 0 && phase == Creating && completions == []
    {
      gcSnapName1, gcSnapName2, retVal, phase, completions := "", "", 0, Creating, [];
      this.snapshots, known, base := snapshots, snapshots, snapshots;
    }

    /** What holds between two answers, after `k` remove requests have been answered. */
    ghost predicate Valid(env: Env, k: nat)
      reads this
    {
      && Fresh(env, base) && (phase != Completed ==> completions == [])
      && match phase
         case Creating => k == 0 && AwaitingCreate(env)
         case Queued => k == 0 && BothMade(env) && retVal == 0
         case Refreshing(a, b) =>
           BothMade(env) && FirstError(env) == 0 && a == gcSnapName1 && b == gcSnapName2
         case Removing(n) => FailedWith(env) && gcSnapName1 == "" && AwaitingRemove(env, k, n)
         case Completed =>
           completions == [FirstError(env)] && FirstError(env) < 0 && snapshots == base + Leftover(env)
    }

    ghost predicate AwaitingCreate(env: Env)
      reads this
    {
      && retVal == 0 && env.plugin(1) && gcSnapName1 == env.names(1) && snapshots == known
      && if gcSnapName2 == "" then snapshots == base
         else
           && env.creates(1).result >= 0 && env.plugin(2) && gcSnapName2 == env.names(2)
           && snapshots == base + {gcSnapName1}
    }

    ghost predicate BothMade(env: Env)
      reads this
    {
      && env.plugin(1) && env.plugin(2) && env.creates(1).result >= 0 && env.creates(2).result >= 0
      && gcSnapName1 == env.names(1) && gcSnapName2 == env.names(2)
      && snapshots == known == base + {gcSnapName1, gcSnapName2}
    }

    /** The error saved is the first one, and it is not that of a lost plugin. */
    ghost predicate FailedWith(env: Env)
      reads this
    {
      && retVal < 0 && retVal == FirstError(env) && env.plugin(1)
      && (env.creates(1).result >= 0 ==> env.plugin(2))
    }

    /** The first snapshot is being removed, with the second still to come if it was asked for, or the second is. */
    ghost predicate AwaitingRemove(env: Env, k: nat, n: string)
      reads this
    {
      if k == 0 then
        && n == env.names(1)
        && if env.creates(1).result < 0 then
             env.creates(1).left && env.creates(1).seen && gcSnapName2 == "" && snapshots == known == base + {n}
           else
             && gcSnapName2 == env.names(2)
             && snapshots == base + {n} + Only(Second(env), gcSnapName2)
             && known == base + {n} + Only(SecondSeen(env), gcSnapName2)
      else
        && k == 1 && n == env.names(2) && gcSnapName2 == "" && env.creates(1).result >= 0 && env.removes(0).result >= 0
        && SecondSeen(env) && snapshots == known == base + {n}
    }

    /** What holds when the next name held is to be removed. */
    ghost predicate BeforeRemove(env: Env, k: nat)
      reads this
    {
      if gcSnapName1 != "" then
        && k == 0 && gcSnapName1 == env.names(1)
        && if env.creates(1).result < 0 then
             && gcSnapName2 == "" && snapshots == base + Only(env.creates(1).left, gcSnapName1)
             && known == base + Only(env.creates(1).left && env.creates(1).seen, gcSnapName1)
           else
             && gcSnapName2 == env.names(2)
             && snapshots == base + {gcSnapName1} + Only(Second(env), gcSnapName2)
             && known == base + {gcSnapName1} + Only(SecondSeen(env), gcSnapName2)
      else if gcSnapName2 != "" then
        && k == 1 && gcSnapName2 == env.names(2) && env.creates(1).result >= 0 && env.removes(0).result >= 0
        && snapshots == base + Only(Second(env), gcSnapName2) && known == base + Only(SecondSeen(env), gcSnapName2)
      else snapshots == base + Leftover(env)
    }

    /** How many answers may still come. */
    ghost function Left(): nat
      reads this
    {
      match phase
      case Creating => if gcSnapName2 == "" then 6 else 5
      case Queued => 4
      case Removing(_) => if gcSnapName2 != "" then 3 else 2
      case Refreshing(_, _) => 0
      case Completed => 0
    }

    method Complete(r: int)
      modifies this`phase, this`completions
      ensures phase == Completed && completions == old(completions) + [r]
    {
      phase, completions := Completed, completions + [r];
    }

    method SaveResult(result: int)
      modifies this`retVal
      ensures retVal == if old(retVal) == 0 && result < 0 then result else old(retVal)
    {
      if retVal == 0 && result < 0 {
        retVal := result;
      }
    }

    method SendGcSnapCreate(num: nat, env: Env)
      requires num == 1 || num == 2
      modifies this
      ensures snapshots == old(snapshots) && known == old(known) && retVal == old(retVal)
      ensures !env.plugin(num) ==> phase == Completed && completions == old(completions) + [-ELIBACC]
      ensures env.plugin(num) ==> phase == Creating && completions == old(completions)
      ensures env.plugin(num) && num == 1 ==> gcSnapName1 == env.names(1) && gcSnapName2 == old(gcSnapName2)
      ensures env.plugin(num) && num == 2 ==> gcSnapName2 == env.names(2) && gcSnapName1 == old(gcSnapName1)
    {
      if !env.plugin(num) {
        Complete(-ELIBACC);
        return;
      }
      if num == 1 {
        gcSnapName1 := env.names(num);
      } else {
        gcSnapName2 := env.names(num);
      }
      phase := Creating;
    }

    /** The image context and the cluster after a create request. */
    method Apply(name: string, m: Made)
      modifies this`snapshots, this`known
      ensures snapshots == if m.result >= 0 || m.left then old(snapshots) + {name} else old(snapshots)
      ensures known == if m.result >= 0 || (m.left && m.seen) then old(known) + {name} else old(known)
    {
      if m.result >= 0 || m.left {
        snapshots := snapshots + {name};
      }
      if m.result >= 0 || (m.left && m.seen) {
        known := known + {name};
      }
    }

    method HandleGcSnapCreate(env: Env)
      requires Valid(env, 0) && phase == Creating
      modifies this
      ensures Valid(env, 0) && Left() < old(Left())
    {
      var second := gcSnapName2 != "";
      var m := if second then env.creates(2) else env.creates(1);
      Apply(if second then gcSnapName2 else gcSnapName1, m);
      if m.result < 0 {
        SaveResult(m.result);
        SendGcSnapRemove(env, 0);
        return;
      }
      if gcSnapName2 == "" {
        SendGcSnapCreate(2, env);
        return;
      }
      phase := Queued;
    }

    /** Take the first name still held; stop when none is held or the image does not know it. */
    method SendGcSnapRemove(env: Env, ghost k: nat)
      requires Fresh(env, base) && completions == [] && FailedWith(env) && BeforeRemove(env, k)
      modifies this
      ensures Valid(env, k) && (phase.Removing? || phase.Completed?)
      ensures gcSnapName1 == "" && (old(gcSnapName1) == "" ==> gcSnapName2 == "") && Left() <= 3
      ensures old(gcSnapName1) == old(gcSnapName2) == "" ==> phase == Completed
    {
      var snapName;
      if gcSnapName1 != "" {
        snapName, gcSnapName1 := gcSnapName1, "";
      } else {
        snapName, gcSnapName2 := gcSnapName2, "";
      }
      if snapName == "" {
        Complete(retVal);
        return;
      }
      if snapName !in known {
        Complete(retVal);
        return;
      }
      phase := Removing(snapName);
    }

    /** The answer to remove request `k`. */
    method HandleGcSnapRemove(env: Env, k: nat)
      requires Valid(env, k) && phase.Removing?
      modifies this
      ensures Valid(env, k + 1) && Left() < old(Left()) && !phase.Creating? && !phase.Queued?
    {
      var answer := env.removes(k);
      if answer.result >= 0 || answer.gone {
        snapshots, known := snapshots - {phase.name}, known - {phase.name};
      }
      if answer.result < 0 {
        Complete(retVal);
        return;
      }
      SendGcSnapRemove(env, k + 1);
    }

    /** Both snapshots are there when the manager is asked: the source's assertion holds. */
    method HandleGcRollback(env: Env)
      requires Valid(env, 0) && phase == Queued
      modifies this
      ensures Valid(env, 0) && Left() < old(Left())
    {
      assert gcSnapName1 in known && gcSnapName2 in known;
      if env.rollback < 0 {
        SaveResult(env.rollback);
        SendGcSnapRemove(env, 0);
      } else {
        phase := Refreshing(gcSnapName1, gcSnapName2);
      }
    }

    /**
      A whole run. It fails exactly when something in it fails first, and then completes once, with
      that error; else both snapshots are passed on. Either way it is known which of them exist.
     */
    method Run(env: Env)
      requires Fresh(env, snapshots) && snapshots == known == base && phase == Creating
      requires gcSnapName1 == gcSnapName2 == "" && retVal == 0 && completions == []
      modifies this
      ensures snapshots == old(snapshots) + Leftover(env)
      ensures FirstError(env) < 0 ==> phase == Completed && completions == [FirstError(env)]
      ensures FirstError(env) < 0 ==> (snapshots == old(snapshots) <==> Tidy(env))
      ensures FirstError(env) >= 0 ==>
        && phase == Refreshing(env.names(1), env.names(2)) && completions == []
        && env.names(1) in snapshots && env.names(2) in snapshots
    {
      SendGcSnapCreate(1, env);
      var k := 0;
      while phase.Creating? || phase.Queued? || phase.Removing?
        invariant Valid(env, k)
        decreases Left()
      {
        match phase
        case Creating => HandleGcSnapCreate(env);
        case Queued => HandleGcRollback(env);
        case Removing(_) =>
          HandleGcSnapRemove(env, k);
          k := k + 1;
      }
      if FirstError(env) < 0 {
        LeavesNothingIff(env);
        LeftoverIsNew(env, base);
      }
    }
  }

  lemma LeftoverIsNew(env: Env, base: set<string>)
    requires Fresh(env, base)
    ensures base + Leftover(env) == base <==> Leftover(env) == {}
  {
    assert env.names(1) in Leftover(env) ==> env.names(1) in base + Leftover(env);
    assert env.names(2) in Leftover(env) ==> env.names(2) in base + Leftover(env);
    assert forall n :: n in Leftover(env) ==> n == env.names(1) || n == env.names(2);
  }
}
