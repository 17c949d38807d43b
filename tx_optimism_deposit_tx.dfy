/** The deposit transaction kind: a transaction that enters the chain from
    outside (a parent chain) instead of being signed by a user key. It keeps
    the operation set every transaction kind offers, but most of it is fixed:
    no chain id, no fee market, no nonce, no signature. */
module Types {
  import opened Wrappers
  import opened Common

  /** The type tag of every deposit transaction. */
  const OptimismDepositTxType: byte := 0x7E

  /** The errors the source raises by panicking: both are programming errors
      of the caller, never a data error. */
  datatype UsageError =
    | DepositCannotBeSigned      // sigHash on a deposit
    | NotDepositTransaction      // Transaction.From on another kind's tag
    | NoSenderAccessor           // the inner record does not expose its sender

  /** One entry of an access list: an address and the storage keys it touches. */
  datatype AccessTuple = AccessTuple(address: Address, storageKeys: seq<Hash>)

  /** The contents of a deposit record as values: pointers become options,
      the payload buffer becomes its bytes. */
  datatype DepositFields = DepositFields(
    sourceHash: Hash,
    from: Address,
    to: Option<Address>,
    mint: Option<int>,
    value: Option<int>,
    gas: uint64,
    isSystemTransaction: bool,
    data: seq<byte>)

  /** What a deep copy holds, given what its source holds: every field is
      kept, absent `to` and `mint` stay absent, and an absent `value` becomes
      zero. */
  function CopyOf(f: DepositFields): (g: DepositFields)
    ensures g.value.Some?
    ensures f.value.Some? ==> g.value == f.value
    ensures f.value.None? ==> g.value == Some(0)
    ensures g.(value := f.value) == f
  {
    f.(value := Some(f.value.GetOr(0)))
  }

  /** A copy cannot tell a nil value from a zero one: every record with a nil
      value differs from the same record with a zero value, yet both have the
      same copy, and such records exist. An absent recipient or mint,
      by contrast, is never confused with a present one. */
  lemma NilValueCopiesAsZero()
    ensures forall f: DepositFields :: f.value == None ==>
      f != f.(value := Some(0)) && CopyOf(f) == CopyOf(f.(value := Some(0)))
    ensures exists f: DepositFields, g: DepositFields ::
      f.value == None && g.value == Some(0) && f != g && CopyOf(f) == CopyOf(g)
    ensures forall f: DepositFields, g: DepositFields ::
      (f.to.None? != g.to.None? || f.mint.None? != g.mint.None?) ==> CopyOf(f) != CopyOf(g)
  {
    var hash: Hash := seq(32, _ => 0);
    var address: Address := seq(20, _ => 0);
    var f := DepositFields(hash, address, None, None, None, 0, false, []);
    var g := f.(value := Some(0));
    assert f != g && CopyOf(f) == CopyOf(g);
  }

  /** A deposit transaction record. `to` absent means contract creation,
      `mint` null means nothing is minted, and `value` may be null in a
      record that was not built by `Copy`. */
  class OptimismDepositTx {
    var sourceHash: Hash
    var from: Address
    var to: Option<Address>
    var mint: BigInt?
    var value: BigInt?
    var gas: uint64
    var isSystemTransaction: bool
    var data: array<byte>

    /** The objects this record owns or points to. */
    ghost function Repr(): set<object>
      reads this
    {
      {this, data}
      + (if value == null then {} else {value as BigInt})
      + (if mint == null then {} else {mint as BigInt})
    }

    /** What the record holds, read through its pointers. */
    ghost function View(): DepositFields
      reads this, Repr()
    {
      DepositFields(
        sourceHash, from, to,
        if mint == null then None else Some(mint.val),
        if value == null then None else Some(value.val),
        gas, isSystemTransaction, data[..])
    }

    /** A record built from all eight fields, pointers taken as given. */
    constructor (sourceHash: Hash, from: Address, to: Option<Address>,
                 mint: BigInt?, value: BigInt?, gas: uint64,
                 isSystemTransaction: bool, data: array<byte>)
      ensures this.sourceHash == sourceHash && this.from == from && this.to == to
      ensures this.mint == mint && this.value == value && this.gas == gas
      ensures this.isSystemTransaction == isSystemTransaction && this.data == data
    {
      this.sourceHash := sourceHash;
      this.from := from;
      this.to := to;
      this.mint := mint;
      this.value := value;
      this.gas := gas;
      this.isSystemTransaction := isSystemTransaction;
      this.data := data;
    }

    /** A deep copy. Scalars and the optional recipient are carried over, the
        payload is copied into another buffer, `Mint` stays absent or gets a
        new cell with the same amount, and `Value` always gets a new cell:
        the source's amount, or zero when the source has none. The source is
        left as it was and shares no object with the copy. */
    method Copy() returns (cpy: OptimismDepositTx)
      ensures fresh(cpy)
      ensures cpy.sourceHash == sourceHash && cpy.from == from
      ensures cpy.gas == gas && cpy.isSystemTransaction == isSystemTransaction
      ensures cpy.to == to
      ensures fresh(cpy.data) && cpy.data[..] == data[..]
      ensures cpy.mint == null <==> mint == null
      ensures mint != null ==> fresh(cpy.mint) && cpy.mint.val == mint.val
      ensures cpy.value != null && fresh(cpy.value) && cpy.value != cpy.mint
      ensures cpy.value.val == if value == null then 0 else value.val
      ensures cpy.Repr() !! Repr()
      ensures cpy.View() == CopyOf(View())
      ensures View() == old(View())
    {
      var d := CopyBytes(data);
      var v := new BigInt();
      cpy := new OptimismDepositTx(sourceHash, from, to, null, v, gas, isSystemTransaction, d);
      if mint != null {
        var m := new BigInt();
        m := m.Set(mint);
        cpy.mint := m;
      }
      if value != null {
        var _ := v.Set(value);
      }
    }

    // The accessors of the transaction-kind interface.

    function TxType(): (t: byte)
      ensures t == 0x7E
    {
      OptimismDepositTxType
    }

    /** The chain id is the shared zero: a deposit is not bound to a chain by
        a signature. */
    function ChainId(): (id: int)
      ensures id == 0
    {
      0
    }

    function AccessList(): (list: seq<AccessTuple>)
      ensures list == []
    {
      []
    }

    function Data(): array<byte>
      reads this
    {
      data
    }

    function Gas(): uint64
      reads this
    {
      gas
    }

    /** Each fee accessor hands out a new zero cell, so that a caller who
        writes into the result cannot change what the next caller sees. */
    method GasFeeCap() returns (cap: BigInt)
      ensures fresh(cap) && cap.val == 0
    {
      cap := new BigInt();
    }

    method GasTipCap() returns (tip: BigInt)
      ensures fresh(tip) && tip.val == 0
    {
      tip := new BigInt();
    }

    method GasPrice() returns (price: BigInt)
      ensures fresh(price) && price.val == 0
    {
      price := new BigInt();
    }

    function Value(): BigInt?
      reads this
    {
      value
    }

    function Nonce(): (n: uint64)
      ensures n == 0
    {
      0
    }

    function From(): Address
      reads this
    {
      from
    }

    function To(): Option<Address>
      reads this
    {
      to
    }

    function IsSystemTx(): bool
      reads this
    {
      isSystemTransaction
    }

    /** Deposits take no part in the fee market: whatever the base fee, the
        price written into the caller's cell `dst` is zero, and that same cell
        is returned. Only `dst` changes. */
    method EffectiveGasPrice(dst: BigInt, baseFee: BigInt?) returns (price: BigInt)
      modifies dst
      ensures price == dst && dst.val == 0
    {
      var zero := new BigInt();
      price := dst.Set(zero);
    }

    /** A deposit has no nonce to report. */
    function EffectiveNonce(): (n: Option<uint64>)
      ensures n == None
    {
      None
    }

    /** A deposit is never signed: asking for its signing hash is a usage
        error for every chain id. */
    function SigHash(chainId: int): (h: Result<Hash, UsageError>)
      ensures h.Failure? && h.error == DepositCannotBeSigned
    {
      Failure(DepositCannotBeSigned)
    }

    function RawSignatureValues(): (sig: (int, int, int))
      ensures sig.0 == 0 && sig.1 == 0 && sig.2 == 0
    {
      (0, 0, 0)
    }

    /** Accepts any signature and keeps none of it, so generic signing code
        can pass a deposit through unchanged. */
    method SetSignatureValues(chainId: BigInt?, v: BigInt?, r: BigInt?, s: BigInt?)
      ensures unchanged(this)
      ensures View() == old(View())
    {
    }
  }

  /** The field accessors read the record itself: `Data()` hands out the
      record's own buffer (not a copy), and `Value()` the record's own cell,
      which may be null. */
  lemma AccessorsReadFields(tx: OptimismDepositTx)
    ensures tx.Data() == tx.data && tx.Data()[..] == tx.View().data
    ensures tx.Gas() == tx.View().gas
    ensures tx.Value() == tx.value && (tx.Value() == null <==> tx.View().value == None)
    ensures tx.From() == tx.View().from
    ensures tx.To() == tx.View().to
    ensures tx.IsSystemTx() == tx.View().isSystemTransaction
  {
  }

  /** Deep-copy-then-modify: the copy's gas, value cell, mint cell and first
      payload byte are changed in place. The copy holds exactly the new values
      on top of what it copied, and the source reads exactly as before. */
  method ModifyCopy(tx: OptimismDepositTx, newGas: uint64, newValue: int, newMint: int, firstByte: byte)
    returns (cpy: OptimismDepositTx)
    ensures tx.View() == old(tx.View())
    ensures var was := old(tx.View());
      cpy.View() == CopyOf(was).(
        gas := newGas,
        value := Some(newValue),
        mint := if was.mint.None? then None else Some(newMint),
        data := if was.data == [] then [] else [firstByte] + was.data[1..])
  {
    cpy := tx.Copy();
    cpy.gas := newGas;
    cpy.value.val := newValue;
    if cpy.mint != null {
      cpy.mint.val := newMint;
    }
    if cpy.data.Length > 0 {
      cpy.data[0] := firstByte;
    }
  }

  /** The other direction: after copying, the source's gas, value cell and
      first payload byte are changed in place, and the copy keeps what it
      copied. */
  method ModifySource(tx: OptimismDepositTx, newGas: uint64, newValue: int, firstByte: byte)
    returns (cpy: OptimismDepositTx)
    modifies tx`gas, tx.data, tx.value
    ensures cpy.View() == CopyOf(old(tx.View()))
    ensures var was := old(tx.View());
      tx.View() == was.(
        gas := newGas,
        value := if was.value.None? then None else Some(newValue),
        mint := if tx.mint != null && tx.mint == tx.value then Some(newValue) else was.mint,
        data := if was.data == [] then [] else [firstByte] + was.data[1..])
  {
    cpy := tx.Copy();
    tx.gas := newGas;
    if tx.value != null {
      tx.value.val := newValue;
    }
    if tx.data.Length > 0 {
      tx.data[0] := firstByte;
    }
  }

  /** The inner record of a transaction envelope: a deposit, or a record of
      another kind, of which only its type tag matters here. */
  datatype TxInner =
    | DepositInner(deposit: OptimismDepositTx)
    | OtherInner(txType: byte)

  /** The transaction envelope, holding exactly one inner record. */
  datatype Transaction = Transaction(inner: TxInner) {

    /** The envelope's type tag is its inner record's. */
    function Type(): (t: byte)
      ensures inner.DepositInner? ==> t == OptimismDepositTxType
      ensures inner.OtherInner? ==> t == inner.txType
    {
      match inner
      case DepositInner(d) => d.TxType()
      case OtherInner(k) => k
    }

    /** The sender of a deposit, read without a signer. The tag is checked
        first; an envelope of any other kind fails instead of yielding a
        default address. */
    function From(): (r: Result<Address, UsageError>)
      reads if inner.DepositInner? then {inner.deposit} else {}
      ensures r.Success? <==> inner.DepositInner?
      ensures r.Success? ==> r.value == inner.deposit.from
      ensures Type() != OptimismDepositTxType ==> r == Failure(NotDepositTransaction)
    {
      if Type() != OptimismDepositTxType then Failure(NotDepositTransaction)
      else
        match inner
        case DepositInner(d) => Success(d.From())
        case OtherInner(_) => Failure(NoSenderAccessor)
    }
  }
}
