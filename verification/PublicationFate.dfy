/** Which receipts can still be confirmed, and what a confirmed one proves. */
module PublicationFate {
  import opened Base
  import opened Publication
  import opened PublicationCalls

  // ---- what delayed mining can still reach ---------------------------------

  /** The committed transaction has reverted, or can only revert because the
      registry entry is already taken. */
  predicate Doomed(w: World, id: int)
    requires Inv(w) && 0 <= id < |w.rows|
  {
    w.rows[id].tx.Some? &&
    (w.txs[w.rows[id].tx.value].fate == Reverted
     || (w.txs[w.rows[id].tx.value].fate == Waiting && id in w.chain))
  }

  lemma {:induction false} DoomedStays(w: World, id: int, steps: seq<Step>)
    requires Inv(w) && 0 <= id < |w.rows| && Doomed(w, id)
    ensures id < |Run(w, steps).rows| && Run(w, steps).rows[id].status != Confirmed
    decreases |steps|
  {
    hide FindLog, Next;
    if |steps| > 0 {
      var next := Next(w, steps[0]);
      NextKeeps(w, steps[0]);
      NextIsLater(w, steps[0]);
      DoomedOnce(w, id, steps[0]);
      DoomedStays(next, id, steps[1..]);
    }
  }

  lemma DoomedOnce(w: World, id: int, step: Step)
    requires Inv(w) && 0 <= id < |w.rows| && Doomed(w, id)
    requires Inv(Next(w, step)) && Later(w, Next(w, step))
    ensures Doomed(Next(w, step), id)
  {
    hide FindLog;
  }

  /** A run that confirms the receipt, when there is one. */
  function Rescue(w: World, id: int): seq<Step>
    requires Inv(w) && 0 <= id < |w.rows|
  {
    var idle := Next(w, Crash);
    var row := w.rows[id];
    if row.tx.Some? && w.txs[row.tx.value].fate == Waiting
    then [Crash, Mine(row.tx.value)] + Script(Next(idle, Mine(row.tx.value)), id, DELAYED)
    else [Crash] + Script(idle, id, PROMPT)
  }

  lemma RunOne(w: World, step: Step)
    ensures Run(w, [step]) == Next(w, step)
  {
    hide Next;
    assert [step][1..] == [];
  }

  lemma RescueWorks(w: World, id: int)
    requires Inv(w) && 0 <= id < |w.rows| && w.rows[id].digest != 0 && !Doomed(w, id)
    ensures var v := Run(w, Rescue(w, id)); 0 <= id < |v.rows| && v.rows[id].status == Confirmed
  {
    hide FindLog, Script, Run;
    var idle := Next(w, Crash);
    var row := w.rows[id];
    NextKeeps(w, Crash);
    RunConcat(w, [Crash], Script(idle, id, PROMPT));
    RunOne(w, Crash);
    if row.tx.Some? && w.txs[row.tx.value].fate == Waiting {
      var i := row.tx.value;
      var mined := Next(idle, Mine(i));
      NextKeeps(idle, Mine(i));
      RunConcat(w, [Crash, Mine(i)], Script(mined, id, DELAYED));
      RunConcat(w, [Crash], [Mine(i)]);
      assert [Crash, Mine(i)] == [Crash] + [Mine(i)];
      RunOne(idle, Mine(i));
      DelayedCallConfirmsIff(mined, id);
    } else {
      FreshCallConfirms(idle, id);
    }
  }

  /** Exactly the receipts that are not doomed can still be confirmed. */
  lemma ConfirmableIff(w: World, id: int)
    requires Inv(w) && 0 <= id < |w.rows| && w.rows[id].digest != 0
    ensures (exists steps :: id < |Run(w, steps).rows| && Run(w, steps).rows[id].status == Confirmed) <==> !Doomed(w, id)
  {
    if Doomed(w, id) {
      forall steps | id < |Run(w, steps).rows| ensures Run(w, steps).rows[id].status != Confirmed {
        DoomedStays(w, id, steps);
      }
    } else {
      RescueWorks(w, id);
    }
  }

  /** A crash between sending and committing, then a second send, then the first
      transaction mined first: the digest is on the chain and no run confirms it. */
  lemma LostReplyThenDelayCanDoom(digest: int, more: seq<Step>)
    requires digest != 0
    ensures var steps := [Create(digest), Begin(0), Look(true), Send(Answered), Crash,
                          Begin(0), Look(true), Send(Answered), Check(true), Commit, Mine(0), Mine(1)];
      var w := Run(EMPTY, steps);
      && |w.rows| == 1 && Stored(w, 0) == digest
      && |Run(w, more).rows| > 0 && Run(w, more).rows[0].status != Confirmed
  {
    hide FindLog;
    var steps := [Create(digest), Begin(0), Look(true), Send(Answered), Crash,
                  Begin(0), Look(true), Send(Answered), Check(true), Commit, Mine(0), Mine(1)];
    var first, second := steps[..5], steps[5..];
    assert steps == first + second;
    RunConcat(EMPTY, first, second);
    var crashed := World([Row(digest, None, Pending)], map[], [Tx(0, digest, Waiting)], Idle);
    FirstAttempt(digest);
    assert first == [Create(digest), Begin(0), Look(true), Send(Answered), Crash];
    assert second == [Begin(0), Look(true), Send(Answered), Check(true), Commit, Mine(0), Mine(1)];
    SecondAttempt(digest);
    RunKeeps(EMPTY, steps);
    DoomedStays(Run(EMPTY, steps), 0, more);
  }

  lemma FirstAttempt(digest: int)
    requires digest != 0
    ensures Run(EMPTY, [Create(digest), Begin(0), Look(true), Send(Answered), Crash])
      == World([Row(digest, None, Pending)], map[], [Tx(0, digest, Waiting)], Idle)
  {
    var s := [Create(digest), Begin(0), Look(true), Send(Answered), Crash];
    assert s[1..] == [Begin(0), Look(true), Send(Answered), Crash];
    assert s[1..][1..] == [Look(true), Send(Answered), Crash];
    assert s[1..][1..][1..] == [Send(Answered), Crash];
    assert s[1..][1..][1..][1..] == [Crash];
    assert [Crash][1..] == [];
    var row := Row(digest, None, Pending);
    assert EMPTY.rows + [row] == [row];
    assert Run(EMPTY, s) == Run(World([row], map[], [], Idle), s[1..]);
    var seen := World([row], map[], [], Working(0, row, Seen(0)));
    assert Run(World([row], map[], [], Idle), s[1..]) == Run(seen, [Send(Answered), Crash]);
  }

  lemma SecondAttempt(digest: int)
    requires digest != 0
    ensures Run(World([Row(digest, None, Pending)], map[], [Tx(0, digest, Waiting)], Idle),
                [Begin(0), Look(true), Send(Answered), Check(true), Commit, Mine(0), Mine(1)])
      == World([Row(digest, Some(1), Submitted)], map[0 := digest],
               [Tx(0, digest, Success), Tx(0, digest, Reverted)], Idle)
  {
    var s := [Begin(0), Look(true), Send(Answered), Check(true), Commit, Mine(0), Mine(1)];
    var row := Row(digest, None, Pending);
    var crashed := World([row], map[], [Tx(0, digest, Waiting)], Idle);
    var looked := crashed.(worker := Working(0, row, Seen(0)));
    assert s[1..] == [Look(true), Send(Answered), Check(true), Commit, Mine(0), Mine(1)];
    assert s[1..][1..] == [Send(Answered), Check(true), Commit, Mine(0), Mine(1)];
    assert s[1..][1..][1..] == [Check(true), Commit, Mine(0), Mine(1)];
    assert Run(crashed, s) == Run(looked, s[1..][1..]);
    var sent := World([row], map[], [Tx(0, digest, Waiting), Tx(0, digest, Waiting)],
                      Working(0, row.(tx := Some(1)), Hashed));
    assert Run(looked, s[1..][1..]) == Run(sent, s[1..][1..][1..]);
    assert s[1..][1..][1..][1..] == [Commit, Mine(0), Mine(1)];
    assert [Commit, Mine(0), Mine(1)][1..] == [Mine(0), Mine(1)];
    assert [Mine(0), Mine(1)][1..] == [Mine(1)];
    assert [Mine(1)][1..] == [];
  }

  /** `verify_receipt` in a reachable world: for a confirmed receipt it accepts
      exactly the payload whose digest was recorded. */
  predicate Verifies(w: World, id: int, calculated: int)
    requires 0 <= id < |w.rows|
  {
    calculated == w.rows[id].digest && Stored(w, id) == calculated
  }

  lemma VerifiesIff(steps: seq<Step>, id: int, calculated: int)
    requires 0 <= id < |Run(EMPTY, steps).rows| && calculated != 0
    ensures var w := Run(EMPTY, steps);
      Verifies(w, id, calculated) <==>
      calculated == w.rows[id].digest && exists i :: 0 <= i < |w.txs| && w.txs[i] == Tx(id, calculated, Success)
  {
    RunKeeps(EMPTY, steps);
    var w := Run(EMPTY, steps);
    if Verifies(w, id, calculated) {
      var i := FindLog(w.txs, id).value;
      assert w.txs[i] == Tx(id, calculated, Success);
    } else if calculated == w.rows[id].digest {
      forall i | 0 <= i < |w.txs| ensures w.txs[i] != Tx(id, calculated, Success) {
        assert w.txs[i].fate == Success ==> w.txs[i].receipt in w.chain;
      }
    }
  }
}
