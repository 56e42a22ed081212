/** The worker's publication loop, updating receipt rows in place. Each call is
    the undisturbed script of `PublicationCalls` under whatever the node answers. */
module Outbox {
  import opened Base
  import opened Publication
  import opened PublicationCalls

  /** The rows a cycle picked, published in turn. */
  function PublishAll(w: World, pending: seq<int>, answers: int -> Calls): World
    decreases |pending|
  {
    if |pending| == 0 then w
    else PublishAll(Publish(w, pending[0], answers(pending[0])), pending[1..], answers)
  }

  predicate Picked(w: World, pending: seq<int>) {
    && (forall i :: 0 <= i < |pending| ==> 0 <= pending[i] < |w.rows| && w.rows[pending[i]].status != Confirmed)
    && (forall i, j :: 0 <= i < j < |pending| ==> pending[i] != pending[j])
  }

  /** A worker holding a receipt in memory, after an error or before the check. */
  function InMemory(id: int, row: Row, raised: bool): Worker {
    if raised then Working(id, row.(status := Pending), Finished) else Working(id, row, Hashed)
  }

  class Outbox {
    var rows: seq<Row>
    var chain: map<int, int>
    var txs: seq<Tx>

    function View(): World
      reads this
    {
      World(rows, chain, txs, Idle)
    }

    constructor ()
      ensures View() == EMPTY
    {
      rows, chain, txs := [], map[], [];
    }

    /** A transaction reaches the contract, which writes each key once. */
    method MineOne(i: int)
      requires 0 <= i < |txs|
      modifies this`chain, this`txs
      ensures View() == MineNext(old(View()), i)
    {
      var tx := txs[i];
      if tx.fate == Waiting {
        if (tx.receipt !in chain || chain[tx.receipt] == 0) && tx.digest != 0 {
          chain := chain[tx.receipt := tx.digest];
          txs := txs[i := tx.(fate := Success)];
        } else {
          txs := txs[i := tx.(fate := Reverted)];
        }
      }
    }

    /** A transaction reaches the node, which may mine it at once. */
    method Transmit(tx: Tx, mined: bool)
      modifies this`chain, this`txs
      ensures var sent := old(View()).(txs := old(txs) + [tx]);
        View() == if mined then MineNext(sent, |old(txs)|) else sent
    {
      txs := txs + [tx];
      if mined {
        MineOne(|txs| - 1);
      }
    }

    /** The first half of `publish`: read the registry, recover a lost transaction
        hash from the logs, or send. */
    method Submit(id: int, row: Row, rpc: Calls) returns (out: Row, raised: bool)
      requires Inv(View()) && 0 <= id < |rows| && row == rows[id] && row.status != Confirmed
      modifies this`chain, this`txs
      ensures Sent(old(View()), id, rpc) == World(rows, chain, txs, InMemory(id, out, raised))
      ensures !raised ==> out.tx.Some?
    {
      hide FindLog, Inv, MineNext, Sent;
      MineIgnoresWorker(View(), id, row, rpc);
      SentCases(View(), id, rpc);
      out, raised := row, true;
      if !rpc.look {
        return;
      }
      var existing := if id in chain then chain[id] else 0;
      if existing != 0 && existing != out.digest {
        return;
      }
      if out.tx.None? && existing == out.digest {
        var log := FindLog(txs, id);
        if !rpc.logs || log.None? {
          return;
        }
        out := out.(tx := log);
      }
      if out.tx.None? && existing == 0 {
        if rpc.send == Unreachable {
          return;
        }
        Transmit(Tx(id, row.digest, Waiting), rpc.mined);
        if rpc.send == Lost {
          return;
        }
        out := out.(tx := Some(|txs| - 1));
      }
      raised := false;
    }

    /** `publish`: the receipt as it is left in memory, and whether it raised. */
    method Call(id: int, row: Row, rpc: Calls) returns (out: Row, raised: bool)
      requires Inv(View()) && 0 <= id < |rows| && row == rows[id] && row.status != Confirmed
      modifies this`chain, this`txs
      ensures View().(rows := rows[id := if raised then out.(status := Pending) else out]) == Publish(old(View()), id, rpc)
    {
      hide FindLog, Inv, Sent, Publish;
      PublishSteps(View(), id, rpc);
      SentKeeps(View(), id, rpc);
      out, raised := Submit(id, row, rpc);
      if raised {
        return;
      }
      raised := true;
      KnownTx(World(rows, chain, txs, InMemory(id, out, false)));
      if !rpc.check {
        return;
      }
      var fate := txs[out.tx.value].fate;
      if fate == Waiting {
        out, raised := out.(status := Submitted), false;
        return;
      }
      if fate == Reverted {
        return;
      }
      out, raised := out.(status := Confirmed), false;
    }

    /** One receipt of the loop: publish, keep the failure, commit. */
    method PublishReceipt(id: int, rpc: Calls)
      requires Inv(View()) && 0 <= id < |rows| && rows[id].status != Confirmed
      modifies this
      ensures Inv(View())
      ensures View() == Publish(old(View()), id, rpc)
    {
      hide Inv, Publish;
      PublishKeeps(View(), id, rpc);
      var row, raised := Call(id, rows[id], rpc);
      if raised {
        row := row.(status := Pending);
      }
      rows := rows[id := row];
    }

    /** `cycle`: up to ten unconfirmed receipts, each committed on its own. */
    method Cycle(pending: seq<int>, answers: int -> Calls)
      requires Inv(View()) && Picked(View(), pending) && |pending| <= 10
      modifies this
      ensures Inv(View())
      ensures View() == PublishAll(old(View()), pending, answers)
    {
      hide Inv, Publish;
      ghost var all := PublishAll(View(), pending, answers);
      assert pending[0..] == pending;
      var i := 0;
      while i < |pending|
        invariant 0 <= i <= |pending|
        invariant Inv(View()) && Picked(View(), pending[i..])
        invariant PublishAll(View(), pending[i..], answers) == all
      {
        assert pending[i..][0] == pending[i];
        assert pending[i..][1..] == pending[i + 1..];
        PickedLater(View(), pending[i..], answers(pending[i]));
        PublishReceipt(pending[i], answers(pending[i]));
        i := i + 1;
      }
    }
  }

  /** Mining does not look at the worker, and an unmined message changes nothing. */
  lemma MineIgnoresWorker(w: World, id: int, row: Row, rpc: Calls)
    ensures Next(w, Mine(|w.txs|)) == w
    ensures var sent := w.(txs := w.txs + [Tx(id, row.digest, Waiting)]);
      var mined := MineNext(sent, |w.txs|);
      && mined.rows == w.rows && |mined.txs| == |w.txs| + 1
      && (forall worker :: MineNext(sent.(worker := worker), |w.txs|) == mined.(worker := worker))
  {
  }

  lemma SentKeeps(w: World, id: int, rpc: Calls)
    requires Inv(w)
    ensures Inv(Sent(w, id, rpc))
  {
    hide Inv, Next;
    NextKeeps(w, Begin(id));
    NextKeeps(Next(w, Begin(id)), Look(rpc.look));
    var looked := Next(Next(w, Begin(id)), Look(rpc.look));
    NextKeeps(looked, Resolve(rpc.logs));
    NextKeeps(Next(looked, Resolve(rpc.logs)), Send(rpc.send));
    NextKeeps(Next(Next(looked, Resolve(rpc.logs)), Send(rpc.send)), Mine(|w.txs|));
  }

  lemma KnownTx(w: World)
    requires Inv(w) && w.worker.Working?
    ensures w.worker.row.tx.Some? ==> 0 <= w.worker.row.tx.value < |w.txs|
  {
  }

  lemma PublishKeeps(w: World, id: int, rpc: Calls)
    requires Inv(w)
    ensures Inv(Publish(w, id, rpc)) && Later(w, Publish(w, id, rpc))
  {
    RunKeeps(w, Script(w, id, rpc));
    ConfirmationIsFinal(w, Script(w, id, rpc));
  }

  lemma SentIsLocal(w: World, id: int, rpc: Calls)
    requires w.worker.Idle? && 0 <= id < |w.rows| && w.rows[id].status != Confirmed
    ensures var v := Sent(w, id, rpc);
      v.rows == w.rows && v.worker.Working? && v.worker.receipt == id && (v.worker.at.Hashed? || v.worker.at.Finished?)
  {
    hide FindLog;
  }

  /** A call touches its own row only. */
  lemma PublishIsLocal(w: World, id: int, rpc: Calls)
    requires w.worker.Idle? && 0 <= id < |w.rows| && w.rows[id].status != Confirmed
    ensures var v := Publish(w, id, rpc);
      |v.rows| == |w.rows| && v.worker.Idle?
      && forall k :: 0 <= k < |w.rows| && k != id ==> v.rows[k] == w.rows[k]
  {
    hide FindLog, Script, Sent;
    PublishSteps(w, id, rpc);
    SentIsLocal(w, id, rpc);
  }

  lemma PickedLater(w: World, pending: seq<int>, rpc: Calls)
    requires w.worker.Idle? && Picked(w, pending) && |pending| > 0
    ensures Picked(Publish(w, pending[0], rpc), pending[1..])
    ensures Publish(w, pending[0], rpc).worker.Idle?
  {
    hide Publish;
    PublishIsLocal(w, pending[0], rpc);
    var v := Publish(w, pending[0], rpc);
    forall i | 0 <= i < |pending[1..]|
      ensures 0 <= pending[1..][i] < |v.rows| && v.rows[pending[1..][i]].status != Confirmed
    {
      assert pending[1..][i] == pending[i + 1] != pending[0];
    }
  }

  /** A quiet cycle with mine-on-send confirms every receipt it picked. */
  lemma {:induction false} QuietCycleConfirms(w: World, pending: seq<int>, answers: int -> Calls)
    requires PromptInv(w) && w.worker.Idle? && Picked(w, pending)
    requires forall i :: 0 <= i < |pending| ==> w.rows[pending[i]].digest != 0 && answers(pending[i]) == PROMPT
    ensures var v := PublishAll(w, pending, answers);
      && PromptInv(v) && Later(w, v)
      && (forall i :: 0 <= i < |pending| ==> v.rows[pending[i]].status == Confirmed)
    decreases |pending|
  {
    hide Inv, Publish, AllMined;
    if |pending| > 0 {
      var id := pending[0];
      var next := Publish(w, id, PROMPT);
      assert answers(id) == PROMPT;
      PublishKeeps(w, id, PROMPT);
      PromptCallConfirms(w, id);
      PromptPublishKeeps(w, id);
      PickedLater(w, pending, PROMPT);
      QuietCycleConfirms(next, pending[1..], answers);
      var v := PublishAll(next, pending[1..], answers);
      forall i | 0 <= i < |pending| ensures v.rows[pending[i]].status == Confirmed {
        if i > 0 {
          assert pending[i] == pending[1..][i - 1];
        }
      }
    }
  }

  lemma PromptPublishKeeps(w: World, id: int)
    requires PromptInv(w) && w.worker.Idle?
    ensures PromptInv(Publish(w, id, PROMPT))
  {
    hide FindLog, Inv, AllMined, Script, Next;
    PublishKeeps(w, id, PROMPT);
    PublishSteps(w, id, PROMPT);
    var begun := Next(w, Begin(id));
    var looked := Next(begun, Look(true));
    var seen := Next(looked, Resolve(true));
    PromptNextKeeps(w, Begin(id));
    PromptNextKeeps(begun, Look(true));
    PromptNextKeeps(looked, Resolve(true));
    SameTxs(w, id);
    PromptNextKeeps(seen, Send(Answered));
    var mined := PromptNext(seen, Send(Answered));
    PromptNextKeeps(mined, Check(true));
    PromptNextKeeps(Next(mined, Check(true)), Commit);
  }

  lemma SameTxs(w: World, id: int)
    ensures Next(Next(Next(w, Begin(id)), Look(true)), Resolve(true)).txs == w.txs
  {
    hide FindLog;
  }
}
