/** One `publish` call from start to commit: when it confirms, with mining left
    for later and with a node that mines what it is sent. */
module PublicationCalls {
  import opened Base
  import opened Publication

  // ---- one uninterrupted call ----------------------------------------------

  /** How the node answers one call, and whether it mines what it is sent. */
  datatype Calls = Calls(look: bool, logs: bool, send: Reply, mined: bool, check: bool)

  function Script(w: World, id: int, rpc: Calls): seq<Step> {
    [Begin(id), Look(rpc.look), Resolve(rpc.logs), Send(rpc.send)]
    + (if rpc.mined then [Mine(|w.txs|)] else [])
    + [Check(rpc.check), Commit]
  }

  function Publish(w: World, id: int, rpc: Calls): World {
    Run(w, Script(w, id, rpc))
  }

  const DELAYED: Calls := Calls(true, true, Answered, false, true)
  const PROMPT: Calls := Calls(true, true, Answered, true, true)

  lemma {:induction false} RunConcat(w: World, a: seq<Step>, b: seq<Step>)
    ensures Run(w, a + b) == Run(Run(w, a), b)
    decreases |a|
  {
    if |a| == 0 {
      assert a + b == b;
    } else {
      assert (a + b)[1..] == a[1..] + b;
      RunConcat(Next(w, a[0]), a[1..], b);
    }
  }

  /** The world when the call has looked, recovered or sent, and not yet checked. */
  function Sent(w: World, id: int, rpc: Calls): World {
    var seen := Next(Next(Next(w, Begin(id)), Look(rpc.look)), Resolve(rpc.logs));
    var sent := Next(seen, Send(rpc.send));
    if rpc.mined then Next(sent, Mine(|w.txs|)) else sent
  }

  /** The script step by step. */
  lemma PublishSteps(w: World, id: int, rpc: Calls)
    ensures Publish(w, id, rpc) == Next(Next(Sent(w, id, rpc), Check(rpc.check)), Commit)
  {
    hide Next;
    var script := Script(w, id, rpc);
    assert script[1..][0] == Look(rpc.look);
    assert script[1..][1..][0] == Resolve(rpc.logs);
    assert script[1..][1..][1..][0] == Send(rpc.send);
    var tail := script[1..][1..][1..][1..];
    assert tail == (if rpc.mined then [Mine(|w.txs|)] else []) + [Check(rpc.check), Commit];
    var seen := Next(Next(Next(w, Begin(id)), Look(rpc.look)), Resolve(rpc.logs));
    var sent := Next(seen, Send(rpc.send));
    var begun := Next(w, Begin(id));
    assert Run(w, script) == Run(begun, script[1..]);
    assert Run(begun, script[1..]) == Run(Next(begun, Look(rpc.look)), script[1..][1..]);
    assert Run(Next(begun, Look(rpc.look)), script[1..][1..]) == Run(seen, script[1..][1..][1..]);
    assert Run(seen, script[1..][1..][1..]) == Run(sent, tail);
    if rpc.mined {
      assert tail[0] == Mine(|w.txs|);
      assert tail[1..] == [Check(rpc.check), Commit];
    }
    CheckAndCommit(if rpc.mined then Next(sent, Mine(|w.txs|)) else sent, rpc.check);
  }

  lemma CheckAndCommit(w: World, ok: bool)
    ensures Run(w, [Check(ok), Commit]) == Next(Next(w, Check(ok)), Commit)
  {
    hide Next;
    assert [Check(ok), Commit][1..] == [Commit];
    assert [Commit][1..] == [];
  }

  /** The first half of a call, case by case. */
  lemma SentCases(w: World, id: int, rpc: Calls)
    requires w.worker.Idle? && 0 <= id < |w.rows| && w.rows[id].status != Confirmed
    ensures var row, existing, log := w.rows[id], Stored(w, id), FindLog(w.txs, id);
      var failed := Working(id, row.(status := Pending), Finished);
      var longer := w.txs + [Tx(id, row.digest, Waiting)];
      var sent := w.(txs := longer, worker := if rpc.send == Lost then failed else Working(id, row.(tx := Some(|w.txs|)), Hashed));
      Sent(w, id, rpc) ==
      if !rpc.look || (existing != 0 && existing != row.digest) then w.(worker := failed)
      else if row.tx.Some? then w.(worker := Working(id, row, Hashed))
      else if existing == row.digest then
        w.(worker := if !rpc.logs || log.None? then failed else Working(id, row.(tx := log), Hashed))
      else if rpc.send == Unreachable then w.(worker := failed)
      else if rpc.mined then MineNext(sent, |w.txs|)
      else sent
  {
    hide FindLog, MineNext;
    var row, existing := w.rows[id], Stored(w, id);
    var looked := Next(Next(w, Begin(id)), Look(rpc.look));
    assert looked.worker ==
      if !rpc.look || (existing != 0 && existing != row.digest) then Working(id, row.(status := Pending), Finished)
      else Working(id, row, Seen(existing));
  }

  /** Where an undisturbed call stands before its check: with the transaction it
      knew, the one the logs name, a new one, or a failure for an empty digest. */
  lemma SentWhen(w: World, id: int, rpc: Calls)
    requires Inv(w) && w.worker.Idle? && 0 <= id < |w.rows| && w.rows[id].status != Confirmed
    requires rpc.look && rpc.logs && rpc.send == Answered
    ensures var row := w.rows[id];
      var log := FindLog(w.txs, id);
      var added := w.(txs := w.txs + [Tx(id, row.digest, Waiting)],
                      worker := Working(id, row.(tx := Some(|w.txs|)), Hashed));
      Sent(w, id, rpc) ==
      if row.tx.Some? then w.(worker := Working(id, row, Hashed))
      else if id in w.chain && log.Some? then w.(worker := Working(id, row.(tx := log), Hashed))
      else if row.digest == 0 then w.(worker := Working(id, row.(status := Pending), Finished))
      else if rpc.mined then MineNext(added, |w.txs|)
      else added
    ensures id in w.chain ==> FindLog(w.txs, id).Some? && w.rows[id].digest != 0
  {
    hide FindLog, Sent, MineNext;
    SentCases(w, id, rpc);
    LogMeansRecorded(w, id);
  }

  lemma LogMeansRecorded(w: World, id: int)
    requires Inv(w)
    ensures FindLog(w.txs, id).Some? ==> id in w.chain
  {
    var log := FindLog(w.txs, id);
    if log.Some? {
      assert w.txs[log.value].receipt in w.chain;
    }
  }

  /** With mining left for later, an undisturbed call confirms a receipt exactly
      when the chain already shows it: its known transaction succeeded, or it
      knows none and the registry holds its digest. */
  lemma DelayedCallConfirmsIff(w: World, id: int)
    requires Inv(w) && w.worker.Idle? && 0 <= id < |w.rows| && w.rows[id].status != Confirmed
    ensures 0 <= id < |Publish(w, id, DELAYED).rows|
    ensures Publish(w, id, DELAYED).rows[id].status == Confirmed <==>
      if w.rows[id].tx.Some? then w.txs[w.rows[id].tx.value].fate == Success else id in w.chain
  {
    hide FindLog, Sent;
    SentWhen(w, id, DELAYED);
    PublishSteps(w, id, DELAYED);
  }

  /** A transaction mined before its receipt is checked, with nothing in the way. */
  lemma FreshCallConfirms(w: World, id: int)
    requires Inv(w) && w.worker.Idle? && 0 <= id < |w.rows| && w.rows[id].digest != 0
    requires w.rows[id].tx.Some? ==> w.txs[w.rows[id].tx.value].fate == Success
    ensures var v := Publish(w, id, PROMPT); 0 <= id < |v.rows| && v.rows[id].status == Confirmed
  {
    hide FindLog, Sent;
    PublishSteps(w, id, PROMPT);
    if w.rows[id].status == Confirmed {
      ConfirmationIsFinal(w, Script(w, id, PROMPT));
    } else {
      SentWhen(w, id, PROMPT);
    }
  }

  /** What one call leaves, under whatever the node answers: the transaction the
      receipt knows afterwards, whether another was sent, and its status. */
  lemma CallLeaves(w: World, id: int, rpc: Calls)
    requires Inv(w) && w.worker.Idle? && 0 <= id < |w.rows| && w.rows[id].status != Confirmed
    ensures var v, row := Publish(w, id, rpc), w.rows[id];
      var sends := rpc.look && row.tx.None? && id !in w.chain && row.digest != 0 && rpc.send != Unreachable;
      var recovers := rpc.look && row.tx.None? && id in w.chain && rpc.logs;
      var reached := rpc.look && (row.tx.Some? || recovers || (sends && rpc.send == Answered));
      && |v.rows| == |w.rows| && v.worker == Idle && v.rows[id].digest == row.digest
      && |v.txs| == |w.txs| + (if sends then 1 else 0)
      && (sends ==> v.txs[|w.txs|].receipt == id && v.txs[|w.txs|].digest == row.digest
                    && (v.txs[|w.txs|].fate == Success <==> rpc.mined))
      && (row.tx.Some? ==> v.rows[id].tx == row.tx)
      && (row.tx.None? && !reached ==> v.rows[id].tx == None)
      && (reached ==> v.rows[id].tx.Some? && 0 <= v.rows[id].tx.value < |v.txs| && v.txs[v.rows[id].tx.value].receipt == id)
      && (recovers ==> v.txs[v.rows[id].tx.value].fate == Success)
      && v.rows[id].status ==
         (if !reached || !rpc.check then Pending
          else match v.txs[v.rows[id].tx.value].fate
            case Success => Confirmed
            case Waiting => Submitted
            case Reverted => Pending)
  {
    hide FindLog, Sent, MineNext, Stored, Publish;
    SentCases(w, id, rpc);
    RecordedHasLog(w, id);
    PublishSteps(w, id, rpc);
    var row := w.rows[id];
    MinedLast(w, Tx(id, row.digest, Waiting), Working(id, row.(status := Pending), Finished));
    MinedLast(w, Tx(id, row.digest, Waiting), Working(id, row.(tx := Some(|w.txs|)), Hashed));
  }

  /** Mining the transaction just sent. */
  lemma MinedLast(w: World, tx: Tx, worker: Worker)
    requires tx.fate == Waiting
    ensures var v := MineNext(w.(txs := w.txs + [tx], worker := worker), |w.txs|);
      && v.rows == w.rows && v.worker == worker && |v.txs| == |w.txs| + 1
      && v.txs[..|w.txs|] == w.txs && v.txs[|w.txs|].receipt == tx.receipt && v.txs[|w.txs|].digest == tx.digest
      && v.txs[|w.txs|].fate == (if Stored(w, tx.receipt) == 0 && tx.digest != 0 then Success else Reverted)
  {
  }

  lemma RecordedHasLog(w: World, id: int)
    requires Inv(w) && 0 <= id < |w.rows|
    ensures id in w.chain <==> FindLog(w.txs, id).Some?
    ensures id in w.chain ==> Stored(w, id) == w.rows[id].digest != 0
    ensures id !in w.chain ==> Stored(w, id) == 0
    ensures FindLog(w.txs, id).Some? ==>
      0 <= FindLog(w.txs, id).value < |w.txs| && w.txs[FindLog(w.txs, id).value].receipt == id
      && w.txs[FindLog(w.txs, id).value].fate == Success
  {
    LogMeansRecorded(w, id);
  }

  // ---- mine-on-send --------------------------------------------------------

  /** A node that mines every transaction as it arrives. */
  function PromptNext(w: World, step: Step): World {
    if step.Send? then Next(Next(w, step), Mine(|w.txs|)) else Next(w, step)
  }

  function PromptRun(w: World, steps: seq<Step>): World
    decreases |steps|
  {
    if |steps| == 0 then w else PromptRun(PromptNext(w, steps[0]), steps[1..])
  }

  predicate PromptInv(w: World) {
    Inv(w) && AllMined(w)
  }

  predicate AllMined(w: World) {
    && (forall i :: 0 <= i < |w.txs| ==> w.txs[i].fate == Success)
    && (w.worker.Working? && w.worker.at.Seen? && w.worker.at.existing == 0 ==> w.worker.receipt !in w.chain)
  }

  lemma PromptSend(w: World, reply: Reply)
    requires AllMined(w)
    ensures AllMined(Next(Next(w, Send(reply)), Mine(|w.txs|)))
  {
    hide FindLog;
  }

  lemma PromptOther(w: World, step: Step)
    requires Inv(w) && AllMined(w) && !step.Send?
    ensures AllMined(Next(w, step))
  {
    hide FindLog;
  }

  lemma PromptNextKeeps(w: World, step: Step)
    requires PromptInv(w)
    ensures PromptInv(PromptNext(w, step))
  {
    hide FindLog, Inv;
    NextKeeps(w, step);
    if step.Send? {
      NextKeeps(Next(w, step), Mine(|w.txs|));
      PromptSend(w, step.reply);
    } else {
      PromptOther(w, step);
    }
  }

  lemma {:induction false} PromptRunKeeps(w: World, steps: seq<Step>)
    requires PromptInv(w)
    ensures PromptInv(PromptRun(w, steps))
    decreases |steps|
  {
    if |steps| > 0 {
      PromptNextKeeps(w, steps[0]);
      PromptRunKeeps(PromptNext(w, steps[0]), steps[1..]);
    }
  }

  /** With mine-on-send at most one transaction is ever sent for a receipt,
      whatever crashes, lost replies and retries come between. */
  lemma AtMostOneTransaction(steps: seq<Step>, i: int, j: int)
    requires 0 <= i < j < |PromptRun(EMPTY, steps).txs|
    ensures PromptRun(EMPTY, steps).txs[i].receipt != PromptRun(EMPTY, steps).txs[j].receipt
  {
    PromptRunKeeps(EMPTY, steps);
  }

  /** And the next undisturbed call confirms it. */
  lemma NextCallConfirms(steps: seq<Step>, id: int)
    requires var w := PromptRun(EMPTY, steps);
      w.worker.Idle? && 0 <= id < |w.rows| && w.rows[id].digest != 0
    ensures var v := Publish(PromptRun(EMPTY, steps), id, PROMPT);
      0 <= id < |v.rows| && v.rows[id].status == Confirmed
  {
    PromptRunKeeps(EMPTY, steps);
    PromptCallConfirms(PromptRun(EMPTY, steps), id);
  }

  lemma PromptCallConfirms(w: World, id: int)
    requires PromptInv(w) && w.worker.Idle? && 0 <= id < |w.rows| && w.rows[id].digest != 0
    ensures var v := Publish(w, id, PROMPT); 0 <= id < |v.rows| && v.rows[id].status == Confirmed
  {
    hide FindLog;
    FreshCallConfirms(w, id);
  }
}
