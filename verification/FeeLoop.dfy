/** txPost (src/dions.cpp): building a transaction whose fee covers its own size. */
module FeeLoop {
  import opened Options

  const CENT := 1000000
  const MAX_BLOCK_SIZE := 4 * 1024 * 1024

  datatype Script = Script(id: nat)
  datatype Out = Out(value: int, script: Script)
  datatype Coin = Coin(tx: nat, n: nat, value: int)

  function SumOuts(s: seq<Out>): int { if s == [] then 0 else SumOuts(s[..|s| - 1]) + s[|s| - 1].value }

  function SumCoins(s: seq<Coin>): int { if s == [] then 0 else SumCoins(s[..|s| - 1]) + s[|s| - 1].value }

  /** What the wallet does at each attempt: coins for a target, a change script, the place of the change, signing;
      and the serialized size of a transaction. */
  datatype Wallet = Wallet(select: (nat, int) -> Option<seq<Coin>>, reserve: nat -> Option<Script>, random: nat -> nat,
                           signs: (seq<Coin>, seq<Out>) -> bool, size: (seq<Coin>, seq<Out>) -> nat)

  /** SelectCoins reports success only when the coins reach the target. */
  ghost predicate Selects(w: Wallet) {
    forall k, target :: w.select(k, target).Some? ==> SumCoins(w.select(k, target).value) >= target
  }

  datatype Outcome = Failed | Built(vin: seq<Coin>, vout: seq<Out>, fee: int)

  /** The fee a transaction of this many bytes has to pay. */
  function Required(bytes: nat): int { CENT * (1 + bytes / 1024) }

  lemma RequiredBounds(bytes: nat)
    ensures Required(bytes) >= CENT
    ensures bytes < MAX_BLOCK_SIZE ==> Required(bytes) <= Required(MAX_BLOCK_SIZE)
  {
  }

  /** No running total before the last is negative, and neither is the whole. */
  ghost predicate Payable(send: seq<Out>) {
    send != [] && forall k :: 0 <= k <= |send| ==> SumOuts(send[..k]) >= 0
  }

  /** The outputs are those asked for, with the change, if it is worth a CENT, put in among them. */
  ghost predicate WithChange(send: seq<Out>, vout: seq<Out>, change: int) {
    if change < CENT then vout == send
    else exists at, script :: 0 <= at < |send| && vout == send[..at] + [Out(change, script)] + send[at..]
  }

  lemma {:induction false} SumConcat(a: seq<Out>, b: seq<Out>)
    ensures SumOuts(a + b) == SumOuts(a) + SumOuts(b)
  {
    if b == [] {
      assert a + b == a;
    } else {
      assert (a + b)[..|a + b| - 1] == a + b[..|b| - 1];
      SumConcat(a, b[..|b| - 1]);
    }
  }

  lemma SumInsert(s: seq<Out>, at: nat, o: Out)
    requires at <= |s|
    ensures SumOuts(s[..at] + [o] + s[at..]) == SumOuts(s) + o.value
  {
    var one := [o];
    assert one[..0] == [] && SumOuts(one) == SumOuts(one[..0]) + o.value;
    SumConcat(s[..at] + one, s[at..]);
    SumConcat(s[..at], one);
    SumConcat(s[..at], s[at..]);
    assert s[..at] + s[at..] == s;
  }

  /** The total, or none if a running total turns negative. */
  method Total(send: seq<Out>) returns (total: Option<int>)
    ensures total.Some? <==> Payable(send)
    ensures total.Some? ==> total.value == SumOuts(send) >= 0
  {
    var n := 0;
    assert send[..0] == [];
    for i := 0 to |send|
      invariant n == SumOuts(send[..i]) && forall k :: 0 <= k < i ==> SumOuts(send[..k]) >= 0
    {
      if n < 0 {
        assert SumOuts(send[..i]) < 0;
        return None;
      }
      assert send[..i + 1][..i] == send[..i];
      n := n + send[i].value;
    }
    assert send[..|send|] == send;
    if send == [] || n < 0 {
      assert SumOuts(send[..|send|]) == n;
      return None;
    }
    total := Some(n);
  }

  // ---- The attempts

  /** The change that an attempt at this fee leaves. */
  ghost function ChangeAt(w: Wallet, send: seq<Out>, fee: int, k: nat): int
    requires w.select(k, SumOuts(send) + fee).Some?
  {
    SumCoins(w.select(k, SumOuts(send) + fee).value) - SumOuts(send) - fee
  }

  /** There are coins for it, and a script for the change if that is worth a CENT. */
  ghost predicate Covered(w: Wallet, send: seq<Out>, fee: int, k: nat) {
    && w.select(k, SumOuts(send) + fee).Some?
    && (ChangeAt(w, send, fee, k) >= CENT ==> w.reserve(k).Some?)
  }

  ghost function InsAt(w: Wallet, send: seq<Out>, alias: Coin, fee: int, k: nat): seq<Coin>
    requires Covered(w, send, fee, k)
  {
    [alias] + w.select(k, SumOuts(send) + fee).value
  }

  ghost function OutsAt(w: Wallet, send: seq<Out>, fee: int, k: nat): seq<Out>
    requires send != [] && Covered(w, send, fee, k)
  {
    var change := ChangeAt(w, send, fee, k);
    if change < CENT then send
    else
      var at := w.random(k) % |send|;
      send[..at] + [Out(change, w.reserve(k).value)] + send[at..]
  }

  lemma OutsChange(w: Wallet, send: seq<Out>, fee: int, k: nat)
    requires send != [] && Covered(w, send, fee, k)
    ensures var change, vout := ChangeAt(w, send, fee, k), OutsAt(w, send, fee, k);
            WithChange(send, vout, change) && SumOuts(vout) == SumOuts(send) + if change >= CENT then change else 0
  {
    var change := ChangeAt(w, send, fee, k);
    if change >= CENT { SumInsert(send, w.random(k) % |send|, Out(change, w.reserve(k).value)); }
  }

  /** Nothing is missing at the attempt: it makes a signed transaction. */
  ghost predicate Supplied(w: Wallet, send: seq<Out>, alias: Coin, fee: int, k: nat)
    requires send != []
  {
    Covered(w, send, fee, k) && w.signs(InsAt(w, send, alias, fee, k), OutsAt(w, send, fee, k))
  }

  ghost function SizeAt(w: Wallet, send: seq<Out>, alias: Coin, fee: int, k: nat): nat
    requires send != [] && Covered(w, send, fee, k)
  {
    w.size(InsAt(w, send, alias, fee, k), OutsAt(w, send, fee, k))
  }

  /** The fee of attempt `k`, if it is reached: a CENT at first, and then what the transaction of the attempt before would
      have had to pay for its size, if that was more than it paid. */
  ghost function FeeAt(w: Wallet, send: seq<Out>, alias: Coin, k: nat): Option<int>
    requires send != []
  {
    if k == 0 then Some(CENT)
    else
      var fee := FeeAt(w, send, alias, k - 1);
      if fee.Some? && Supplied(w, send, alias, fee.value, k - 1) then
        var bytes := SizeAt(w, send, alias, fee.value, k - 1);
        if bytes < MAX_BLOCK_SIZE && fee.value < CENT * (1 + bytes / 1024) then Some(CENT * (1 + bytes / 1024)) else None
      else None
  }

  /** Attempt `k` is reached and comes to nothing: coins, a change script or signatures are missing, or it is too big. */
  ghost predicate GivesUp(w: Wallet, send: seq<Out>, alias: Coin, k: nat)
    requires send != []
  {
    && FeeAt(w, send, alias, k).Some?
    && var fee := FeeAt(w, send, alias, k).value;
       !Supplied(w, send, alias, fee, k) || SizeAt(w, send, alias, fee, k) >= MAX_BLOCK_SIZE
  }

  /** Attempt `k` is reached and its fee covers its size. */
  ghost predicate Succeeds(w: Wallet, send: seq<Out>, alias: Coin, k: nat)
    requires send != []
  {
    && FeeAt(w, send, alias, k).Some?
    && var fee := FeeAt(w, send, alias, k).value;
       && Supplied(w, send, alias, fee, k) && SizeAt(w, send, alias, fee, k) < MAX_BLOCK_SIZE
       && fee >= CENT * (1 + SizeAt(w, send, alias, fee, k) / 1024)
  }

  lemma {:induction false} NoneAfter(w: Wallet, send: seq<Out>, alias: Coin, k: nat, j: nat)
    requires send != [] && k < j && FeeAt(w, send, alias, k + 1).None?
    ensures FeeAt(w, send, alias, j).None?
    decreases j
  {
    hide Supplied, SizeAt;
    if j > k + 1 { NoneAfter(w, send, alias, k, j - 1); }
  }

  /** An attempt that was reached and succeeded leaves none that gives up. */
  lemma SucceedsOnly(w: Wallet, send: seq<Out>, alias: Coin, k: nat)
    requires send != [] && Succeeds(w, send, alias, k) && forall j :: 0 <= j < k ==> !GivesUp(w, send, alias, j)
    ensures forall j :: !GivesUp(w, send, alias, j)
  {
    hide Supplied, SizeAt;
    assert FeeAt(w, send, alias, k + 1).None?;
    forall j: nat | j >= k ensures !GivesUp(w, send, alias, j) {
      if j > k { NoneAfter(w, send, alias, k, j); }
    }
  }

  /** One attempt at a given fee: the transaction with its change. */
  method Attempt(w: Wallet, send: seq<Out>, alias: Coin, total: int, fee: int, k: nat)
    returns (r: Option<(seq<Coin>, seq<Out>)>)
    requires Selects(w) && send != [] && total == SumOuts(send) && total + fee > 0
    ensures r.Some? <==> Supplied(w, send, alias, fee, k)
    ensures r.Some? ==> r.value == (InsAt(w, send, alias, fee, k), OutsAt(w, send, fee, k))
    ensures r.Some? ==>
              var (vin, vout) := r.value;
              && vin != [] && vin[0] == alias
              && var change := SumCoins(vin[1..]) - total - fee;
                 change >= 0 && WithChange(send, vout, change)
                 && SumOuts(vout) == SumOuts(send) + if change >= CENT then change else 0
  {
    hide WithChange, SumOuts, SumCoins;
    var coins := w.select(k, total + fee);
    if coins.None? {
      return None;
    }
    var vin := [alias] + coins.value;
    assert vin[1..] == coins.value;
    var change := SumCoins(coins.value) - (total + fee);
    var vout := send;
    if change >= CENT {
      var script := w.reserve(k);
      if script.None? {
        return None;
      }
      var at := w.random(k) % |send|;
      vout := send[..at] + [Out(change, script.value)] + send[at..];
    }
    if !w.signs(vin, vout) {
      return None;
    }
    OutsChange(w, send, fee, k);
    r := Some((vin, vout));
  }

  /** txPost: it ends, since the fee rises with every attempt and the block size bounds it. On success the selected
      coins pay for the outputs and the fee, up to a remainder below a CENT; the alias input, which comes first, is
      not counted. The fee covers the size. It fails exactly if the outputs cannot be paid, or an attempt that is reached
      comes to nothing. */
  method TxPost(w: Wallet, send: seq<Out>, alias: Coin) returns (r: Outcome)
    requires Selects(w)
    ensures r.Built? ==> Payable(send) && r.vin != []
    ensures r.Built? ==>
              var paid := SumCoins(r.vin[1..]);
              var remainder := paid - SumOuts(r.vout) - r.fee;
              && r.vin[0] == alias && 0 <= remainder < CENT
              && WithChange(send, r.vout, paid - SumOuts(send) - r.fee)
    ensures r.Built? ==>
              var bytes := w.size(r.vin, r.vout);
              bytes < MAX_BLOCK_SIZE && Required(bytes) <= r.fee <= Required(MAX_BLOCK_SIZE)
    ensures r.Failed? <==> !Payable(send) || exists k :: GivesUp(w, send, alias, k)
    ensures r.Built? ==>
              exists k :: Succeeds(w, send, alias, k) && r.fee == FeeAt(w, send, alias, k).value
                          && r.vin == InsAt(w, send, alias, r.fee, k) && r.vout == OutsAt(w, send, r.fee, k)
  {
    hide Supplied, Covered, InsAt, OutsAt, WithChange;
    var total := Total(send);
    if total.None? {
      return Failed;
    }
    var fee := CENT;
    var k := 0;
    while true
      invariant CENT <= fee <= Required(MAX_BLOCK_SIZE)
      invariant FeeAt(w, send, alias, k) == Some(fee) && forall j :: 0 <= j < k ==> !GivesUp(w, send, alias, j)
      decreases Required(MAX_BLOCK_SIZE) - fee
    {
      var built := Attempt(w, send, alias, total.value, fee, k);
      if built.None? {
        assert GivesUp(w, send, alias, k);
        return Failed;
      }
      var (vin, vout) := built.value;
      var bytes := w.size(vin, vout);
      if bytes >= MAX_BLOCK_SIZE {
        assert GivesUp(w, send, alias, k);
        return Failed;
      }
      RequiredBounds(bytes);
      if fee < Required(bytes) {
        fee, k := Required(bytes), k + 1;
        continue;
      }
      SucceedsOnly(w, send, alias, k);
      return Built(vin, vout, fee);
    }
  }
}
