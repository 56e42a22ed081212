/** Receipt publication: `evm.publish` driven by `workspace_worker.cycle`, the
    write-once registry contract, and everything that can go wrong between them.
    The advisory lock admits one worker at a time; a crash loses what that worker
    has not committed; a sent transaction is mined at any later moment. SHA-256
    keys are taken as distinct, so the registry is indexed by receipt. */
module Publication {
  import opened Base

  datatype Status = Pending | Submitted | Confirmed

  /** A receipt row: its payload digest, the transaction it knows, its status. */
  datatype Row = Row(digest: int, tx: Option<int>, status: Status)

  datatype Fate = Waiting | Success | Reverted

  datatype Tx = Tx(receipt: int, digest: int, fate: Fate)

  /** How far a `publish` call has come. */
  datatype Phase = Loaded | Seen(existing: int) | Hashed | Finished

  datatype Worker = Idle | Working(receipt: int, row: Row, at: Phase)

  datatype World = World(rows: seq<Row>, chain: map<int, int>, txs: seq<Tx>, worker: Worker)

  datatype Reply = Answered | Lost | Unreachable

  datatype Step =
    | Create(digest: int)
    | Begin(receipt: int)
    | Look(ok: bool)
    | Resolve(ok: bool)
    | Send(reply: Reply)
    | Check(ok: bool)
    | Commit
    | Crash
    | Mine(tx: int)

  /** The contract's storage; an absent entry reads as zero. */
  function Stored(w: World, id: int): int {
    if id in w.chain then w.chain[id] else 0
  }

  /** `eth_getLogs` for one key: the first transaction that recorded it. */
  function FindLog(txs: seq<Tx>, id: int): (r: Option<int>)
    ensures r.Some? ==> 0 <= r.value < |txs| && txs[r.value].receipt == id && txs[r.value].fate == Success
    ensures r.None? ==> forall i :: 0 <= i < |txs| ==> txs[i].receipt != id || txs[i].fate != Success
  {
    if |txs| == 0 then None
    else
      var front := FindLog(txs[..|txs| - 1], id);
      var last := txs[|txs| - 1];
      if front.Some? then front
      else if last.receipt == id && last.fate == Success then Some(|txs| - 1)
      else None
  }

  /** What the worker's exception handler leaves in memory. */
  function Failed(w: World): World
    requires w.worker.Working?
  {
    w.(worker := w.worker.(row := w.worker.row.(status := Pending), at := Finished))
  }

  function With(w: World, row: Row, at: Phase): World
    requires w.worker.Working?
  {
    w.(worker := w.worker.(row := row, at := at))
  }

  function LookNext(w: World, ok: bool): World
    requires w.worker.Working?
  {
    var existing := Stored(w, w.worker.receipt);
    if !ok || (existing != 0 && existing != w.worker.row.digest) then Failed(w)
    else With(w, w.worker.row, Seen(existing))
  }

  function ResolveNext(w: World, ok: bool): World
    requires w.worker.Working? && w.worker.at.Seen?
  {
    var row := w.worker.row;
    if row.tx.Some? then With(w, row, Hashed)
    else if w.worker.at.existing != row.digest then w
    else
      var log := FindLog(w.txs, w.worker.receipt);
      if !ok || log.None? then Failed(w) else With(w, row.(tx := log), Hashed)
  }

  predicate Sends(w: World) {
    w.worker.Working? && w.worker.at.Seen? && w.worker.row.tx.None?
    && w.worker.at.existing == 0 && w.worker.row.digest != 0
  }

  function SendNext(w: World, reply: Reply): World
    requires Sends(w)
  {
    var sent := w.(txs := w.txs + [Tx(w.worker.receipt, w.worker.row.digest, Waiting)]);
    match reply
    case Unreachable => Failed(w)
    case Lost => Failed(sent)
    case Answered => With(sent, w.worker.row.(tx := Some(|w.txs|)), Hashed)
  }

  function CheckNext(w: World, ok: bool): World
    requires w.worker.Working?
  {
    var row := w.worker.row;
    if !ok || row.tx.None? || !(0 <= row.tx.value < |w.txs|) then Failed(w)
    else
      match w.txs[row.tx.value].fate
      case Waiting => With(w, row.(status := Submitted), Finished)
      case Reverted => Failed(w)
      case Success => With(w, row.(status := Confirmed), Finished)
  }

  function MineNext(w: World, i: int): World
    requires 0 <= i < |w.txs|
  {
    var tx := w.txs[i];
    if tx.fate != Waiting then w
    else if Stored(w, tx.receipt) == 0 && tx.digest != 0
    then w.(txs := w.txs[i := tx.(fate := Success)], chain := w.chain[tx.receipt := tx.digest])
    else w.(txs := w.txs[i := tx.(fate := Reverted)])
  }

  /** One step; a step that is not enabled changes nothing. */
  function Next(w: World, step: Step): World {
    match step
    case Create(digest) => w.(rows := w.rows + [Row(digest, None, Pending)])
    case Begin(id) =>
      if w.worker.Idle? && 0 <= id < |w.rows| && w.rows[id].status != Confirmed
      then w.(worker := Working(id, w.rows[id], Loaded))
      else w
    case Look(ok) => if w.worker.Working? && w.worker.at.Loaded? then LookNext(w, ok) else w
    case Resolve(ok) => if w.worker.Working? && w.worker.at.Seen? then ResolveNext(w, ok) else w
    case Send(reply) => if Sends(w) then SendNext(w, reply) else w
    case Check(ok) => if w.worker.Working? && w.worker.at.Hashed? then CheckNext(w, ok) else w
    case Commit =>
      if w.worker.Working? && w.worker.at.Finished? && 0 <= w.worker.receipt < |w.rows|
      then w.(rows := w.rows[w.worker.receipt := w.worker.row], worker := Idle)
      else w
    case Crash => w.(worker := Idle)
    case Mine(i) => if 0 <= i < |w.txs| then MineNext(w, i) else w
  }

  function Run(w: World, steps: seq<Step>): World
    decreases |steps|
  {
    if |steps| == 0 then w else Run(Next(w, steps[0]), steps[1..])
  }

  const EMPTY: World := World([], map[], [], Idle)

  // ---- the invariant -------------------------------------------------------

  predicate TxsOk(w: World) {
    && (forall i :: 0 <= i < |w.txs| ==> 0 <= w.txs[i].receipt < |w.rows| && w.txs[i].digest == w.rows[w.txs[i].receipt].digest)
    && (forall i :: 0 <= i < |w.txs| && w.txs[i].fate == Success ==> w.txs[i].receipt in w.chain)
    && (forall i, j :: 0 <= i < j < |w.txs| && w.txs[i].fate == Success && w.txs[j].fate == Success ==>
          w.txs[i].receipt != w.txs[j].receipt)
  }

  predicate ChainOk(w: World) {
    forall k :: k in w.chain ==>
      (0 <= k < |w.rows| && w.chain[k] == w.rows[k].digest && w.chain[k] != 0 && FindLog(w.txs, k).Some?)
  }

  predicate RowOk(txs: seq<Tx>, id: int, row: Row) {
    && (row.tx.Some? ==> 0 <= row.tx.value < |txs| && txs[row.tx.value].receipt == id)
    && (row.status == Confirmed ==> row.tx.Some? && txs[row.tx.value].fate == Success)
  }

  predicate RowsOk(w: World) {
    forall id :: 0 <= id < |w.rows| ==> RowOk(w.txs, id, w.rows[id])
  }

  predicate WorkerOk(w: World) {
    w.worker.Working? ==> (
      var id, row := w.worker.receipt, w.worker.row;
      && 0 <= id < |w.rows| && row.digest == w.rows[id].digest && RowOk(w.txs, id, row)
      && w.rows[id].status != Confirmed
      && (w.rows[id].tx.Some? ==> row.tx == w.rows[id].tx)
      && (w.worker.at.Seen? ==> w.worker.at.existing == 0 || (w.worker.at.existing == row.digest && id in w.chain))
      && (w.worker.at.Hashed? ==> row.tx.Some?)
      && (!w.worker.at.Finished? ==> row.status != Confirmed))
  }

  predicate Inv(w: World) {
    TxsOk(w) && ChainOk(w) && RowsOk(w) && WorkerOk(w)
  }

  lemma LogKept(txs: seq<Tx>, more: seq<Tx>, id: int)
    requires FindLog(txs, id).Some? && |txs| <= |more|
    requires forall i :: 0 <= i < |txs| && txs[i].fate == Success ==> more[i] == txs[i]
    ensures FindLog(more, id).Some?
  {
  }

  lemma SendKeeps(w: World, reply: Reply)
    requires Inv(w) && Sends(w)
    ensures Inv(SendNext(w, reply))
  {
    var next := SendNext(w, reply);
    forall k | k in w.chain ensures FindLog(next.txs, k).Some? {
      LogKept(w.txs, next.txs, k);
    }
  }

  lemma MineKeepsRows(w: World, i: int)
    requires RowsOk(w) && WorkerOk(w) && 0 <= i < |w.txs|
    ensures RowsOk(MineNext(w, i)) && WorkerOk(MineNext(w, i))
  {
  }

  lemma MineKeeps(w: World, i: int)
    requires Inv(w) && 0 <= i < |w.txs|
    ensures Inv(MineNext(w, i))
  {
    hide RowsOk, WorkerOk;
    var next := MineNext(w, i);
    forall k | k in next.chain ensures FindLog(next.txs, k).Some? {
      if k in w.chain {
        LogKept(w.txs, next.txs, k);
      } else {
        assert next.txs[i].receipt == k && next.txs[i].fate == Success;
      }
    }
    MineKeepsRows(w, i);
  }

  lemma WorkerKeeps(w: World, step: Step)
    requires Inv(w) && (step.Look? || step.Resolve? || step.Check?)
    ensures Inv(Next(w, step))
  {
    hide RowsOk, TxsOk;
    SameTables(w, Next(w, step));
  }

  lemma SameTables(w: World, v: World)
    requires v == w.(worker := v.worker)
    ensures TxsOk(w) == TxsOk(v) && ChainOk(w) == ChainOk(v) && RowsOk(w) == RowsOk(v)
  {
  }

  lemma NextKeeps(w: World, step: Step)
    requires Inv(w)
    ensures Inv(Next(w, step))
  {
    hide FindLog;
    match step
    case Send(reply) =>
      if Sends(w) {
        SendKeeps(w, reply);
      }
    case Mine(i) =>
      if 0 <= i < |w.txs| {
        MineKeeps(w, i);
      }
    case Look(_) => WorkerKeeps(w, step);
    case Resolve(_) => WorkerKeeps(w, step);
    case Check(_) => WorkerKeeps(w, step);
    case Create(_) =>
    case Begin(_) =>
    case Commit =>
    case Crash =>
  }

  lemma {:induction false} RunKeeps(w: World, steps: seq<Step>)
    requires Inv(w)
    ensures Inv(Run(w, steps))
    decreases |steps|
  {
    if |steps| > 0 {
      NextKeeps(w, steps[0]);
      RunKeeps(Next(w, steps[0]), steps[1..]);
    }
  }

  /** Under any interleaving of retries, crashes and delayed mining the registry
      holds nothing or exactly the payload digest of a receipt, one transaction at
      most succeeded for it, and a stored confirmation names that transaction. */
  lemma PublicationIsSafe(steps: seq<Step>, id: int)
    requires 0 <= id < |Run(EMPTY, steps).rows|
    ensures var w := Run(EMPTY, steps);
      var row := w.rows[id];
      && (Stored(w, id) == 0 || Stored(w, id) == row.digest)
      && (forall i, j :: 0 <= i < j < |w.txs| && w.txs[i].receipt == w.txs[j].receipt == id ==>
            w.txs[i].fate != Success || w.txs[j].fate != Success)
      && (row.status == Confirmed ==>
            && Stored(w, id) == row.digest != 0
            && row.tx.Some? && 0 <= row.tx.value < |w.txs|
            && w.txs[row.tx.value] == Tx(id, row.digest, Success))
  {
    RunKeeps(EMPTY, steps);
  }

  /** Confirmation, registry entries and digests are never taken back. */
  predicate Later(w: World, v: World) {
    && |w.rows| <= |v.rows| && |w.txs| <= |v.txs|
    && (forall id :: 0 <= id < |w.rows| ==> v.rows[id].digest == w.rows[id].digest)
    && (forall id :: 0 <= id < |w.rows| && w.rows[id].tx.Some? ==> v.rows[id].tx == w.rows[id].tx)
    && (forall id :: 0 <= id < |w.rows| && w.rows[id].status == Confirmed ==> v.rows[id] == w.rows[id])
    && (forall k :: k in w.chain ==> k in v.chain && v.chain[k] == w.chain[k])
    && (forall i :: 0 <= i < |w.txs| ==> v.txs[i].receipt == w.txs[i].receipt)
    && (forall i :: 0 <= i < |w.txs| && w.txs[i].fate != Waiting ==> v.txs[i] == w.txs[i])
  }

  lemma NextIsLater(w: World, step: Step)
    requires Inv(w)
    ensures Later(w, Next(w, step))
  {
    hide FindLog, MineNext, SendNext;
    match step
    case Mine(i) =>
      if 0 <= i < |w.txs| {
        MineIsLater(w, i);
      }
    case Send(reply) =>
      if Sends(w) {
        SendIsLater(w, reply);
      }
    case Create(_) =>
    case Begin(_) =>
    case Look(_) =>
    case Resolve(_) =>
    case Check(_) =>
    case Commit =>
    case Crash =>
  }

  lemma MineIsLater(w: World, i: int)
    requires 0 <= i < |w.txs| && Inv(w)
    ensures Later(w, MineNext(w, i))
  {
    hide FindLog;
  }

  lemma SendIsLater(w: World, reply: Reply)
    requires Sends(w)
    ensures Later(w, SendNext(w, reply))
  {
  }

  lemma {:induction false} ConfirmationIsFinal(w: World, steps: seq<Step>)
    requires Inv(w)
    ensures Later(w, Run(w, steps))
    decreases |steps|
  {
    hide Inv, Next;
    if |steps| > 0 {
      var next := Next(w, steps[0]);
      NextIsLater(w, steps[0]);
      NextKeeps(w, steps[0]);
      ConfirmationIsFinal(next, steps[1..]);
    }
  }
}
