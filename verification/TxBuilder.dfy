/**
 Coin selection and the value flow of transactions (packages/wallet-core/src/txbuilder.ts,
 apps/web/src/utils/consolidate.ts). Signing, scripts and address encoding are left out; an
 output is an address with its value.
 */
module TxBuilder {
  import opened Wrappers
  import opened Text
  import opened Lists

  const SATOSHI_MAX: nat := 9223372036854775807
  const UINT32_MAX: nat := 0xffffffff

  datatype AtomicLike = BigInt(n: int) | Str(s: string)

  datatype TxError = NotDecimal | NegativeValue | ExceedsMax | InsufficientFunds | BadVout | DuplicateInput

  datatype Utxo = Utxo(txid: string, vout: int, value: AtomicLike)

  datatype TxOutput = TxOutput(address: string, value: nat)

  datatype Tx = Tx(inputs: seq<Utxo>, outputs: seq<TxOutput>)

  // ---------- Atomic values ----------

  function IntText(n: int): string {
    if n < 0 then "-" + ToDecimal(-n) else ToDecimal(n)
  }

  /** BigInt(text) for a digit text with an optional minus sign. */
  function ReadBigInt(s: string): int
    requires if s != "" && s[0] == '-' then Digits(s[1..]) else Digits(s)
  {
    if s != "" && s[0] == '-' then 0 - ToNat(s[1..]) else ToNat(s)
  }

  function NormalizeAtomic(value: AtomicLike): (r: Result<string, TxError>)
    ensures r.Ok? ==> if r.value != "" && r.value[0] == '-' then Digits(r.value[1..]) else Digits(r.value)
  {
    match value
    case BigInt(n) => Ok(IntText(n))
    case Str(s) =>
      var trimmed := Trim(s);
      if trimmed == "" || !Digits(trimmed) then Err(NotDecimal)
      else
        StripLeadingZerosValue(trimmed);
        Ok(StripLeadingZeros(trimmed))
  }

  function ToSatoshi(value: AtomicLike): Result<nat, TxError> {
    var normalized := NormalizeAtomic(value);
    if normalized.Err? then Err(normalized.error)
    else
      var satoshi := ReadBigInt(normalized.value);
      if satoshi < 0 then Err(NegativeValue)
      else if satoshi > SATOSHI_MAX then Err(ExceedsMax)
      else Ok(satoshi)
  }

  /** Normalising never changes the amount: a value is accepted as exactly the number it denotes. */
  lemma ToSatoshiMeaning(value: AtomicLike)
    ensures value.BigInt? ==>
              ToSatoshi(value) == if value.n < 0 then Err(NegativeValue) else if value.n > SATOSHI_MAX then Err(ExceedsMax) else Ok(value.n)
    ensures value.Str? && (Trim(value.s) == "" || !Digits(Trim(value.s))) ==> ToSatoshi(value) == Err(NotDecimal)
    ensures value.Str? && Trim(value.s) != "" && Digits(Trim(value.s)) ==>
              ToSatoshi(value) == if ToNat(Trim(value.s)) > SATOSHI_MAX then Err(ExceedsMax) else Ok(ToNat(Trim(value.s)))
  {
    match value {
      case BigInt(n) =>
        if n < 0 {
          assert ("-" + ToDecimal(-n))[1..] == ToDecimal(-n);
        }
      case Str(s) =>
        if Trim(s) != "" && Digits(Trim(s)) {
          StripLeadingZerosValue(Trim(s));
        }
    }
  }

  /** An amount handed over as decimal text arrives unchanged. */
  lemma ToSatoshiOfText(n: nat)
    ensures ToSatoshi(Str(ToDecimal(n))) == if n > SATOSHI_MAX then Err(ExceedsMax) else Ok(n)
  {
    hide ToDecimal, ToNat, ToSatoshi, Trim;
    TrimNothing(ToDecimal(n));
    ToSatoshiMeaning(Str(ToDecimal(n)));
  }

  // ---------- Coin selection ----------

  /** The value of a coin; a coin with an invalid value never gets past a check. */
  function Val(u: Utxo): nat {
    var v := ToSatoshi(u.value);
    if v.Ok? then v.value else 0
  }

  predicate ValidUtxos(utxos: seq<Utxo>) {
    forall i :: 0 <= i < |utxos| ==> ToSatoshi(utxos[i].value).Ok?
  }

  function Total(utxos: seq<Utxo>): nat {
    if utxos == [] then 0 else Total(utxos[..|utxos| - 1]) + Val(utxos[|utxos| - 1])
  }

  predicate NotSmaller(a: Utxo, b: Utxo) {
    Val(a) >= Val(b)
  }

  function LargestFirst(utxos: seq<Utxo>): seq<Utxo> {
    SortBy(utxos, NotSmaller)
  }

  lemma LargestFirstOrder(utxos: seq<Utxo>)
    ensures multiset(LargestFirst(utxos)) == multiset(utxos) && |LargestFirst(utxos)| == |utxos|
    ensures Sorted(LargestFirst(utxos), NotSmaller)
  {
    SortByPermutes(utxos, NotSmaller);
    SortBySorts(utxos, NotSmaller);
  }

  /** The shortest non-empty prefix of the largest-first order that reaches the target. */
  ghost predicate Greedy(utxos: seq<Utxo>, target: nat, picked: seq<Utxo>) {
    && picked <= LargestFirst(utxos)
    && Total(picked) >= target
    && (utxos != [] ==> picked != [])
    && forall j :: 0 < j < |picked| ==> Total(picked[..j]) < target
  }

  datatype Selection = Selection(picked: seq<Utxo>, total: nat)

  /** The picking loop over the sorted coins. */
  method PickUntil(sorted: seq<Utxo>, target: nat) returns (selection: Selection)
    ensures selection.picked <= sorted && selection.total == Total(selection.picked)
    ensures sorted != [] ==> selection.picked != []
    ensures forall j :: 0 < j < |selection.picked| ==> Total(selection.picked[..j]) < target
    ensures selection.total >= target || selection.picked == sorted
  {
    hide Val, Total;
    EmptyTotal([]);
    var picked: seq<Utxo> := [];
    var sum: nat := 0;
    for i := 0 to |sorted|
      invariant picked == sorted[..i] && sum == Total(picked)
      invariant forall j :: 0 < j <= i ==> Total(sorted[..j]) < target
    {
      PushTotal(sorted, i);
      picked := picked + [sorted[i]];
      sum := sum + Val(sorted[i]);
      if sum >= target {
        PrefixSlices(picked, sorted);
        return Selection(picked, sum);
      }
    }
    PrefixSlices(picked, sorted);
    return Selection(picked, sum);
  }

  lemma PushTotal(s: seq<Utxo>, i: nat)
    requires i < |s|
    ensures s[..i] + [s[i]] == s[..i + 1] && Total(s[..i + 1]) == Total(s[..i]) + Val(s[i])
  {
  }

  lemma PrefixSlices(p: seq<Utxo>, s: seq<Utxo>)
    requires p <= s
    ensures forall j {:trigger p[..j]} :: 0 <= j <= |p| ==> p[..j] == s[..j]
  {
  }

  method SelectUtxos(utxos: seq<Utxo>, target: AtomicLike) returns (r: Result<Selection, TxError>)
    ensures ToSatoshi(target).Err? ==> r == Err(ToSatoshi(target).error)
    ensures ToSatoshi(target).Ok? && !ValidUtxos(utxos) ==>
              r.Err? && exists i :: 0 <= i < |utxos| && ToSatoshi(utxos[i].value) == Err(r.error)
    ensures ToSatoshi(target).Ok? && ValidUtxos(utxos) && Total(utxos) < ToSatoshi(target).value ==> r == Err(InsufficientFunds)
    ensures ToSatoshi(target).Ok? && ValidUtxos(utxos) && Total(utxos) >= ToSatoshi(target).value ==>
              r.Ok? && Greedy(utxos, ToSatoshi(target).value, r.value.picked) && r.value.total == Total(r.value.picked)
  {
    hide ToSatoshi, LargestFirst, Total;
    var t := ToSatoshi(target);
    if t.Err? {
      return Err(t.error);
    }
    for i := 0 to |utxos|
      invariant forall j :: 0 <= j < i ==> ToSatoshi(utxos[j].value).Ok?
    {
      var v := ToSatoshi(utxos[i].value);
      if v.Err? {
        return Err(v.error);
      }
    }
    var sorted := LargestFirst(utxos);
    LargestFirstOrder(utxos);
    var selection := PickUntil(sorted, t.value);
    PrefixTotal(selection.picked, sorted, utxos);
    if selection.total < t.value {
      return Err(InsufficientFunds);
    }
    return Ok(selection);
  }

  lemma PrefixTotal(picked: seq<Utxo>, sorted: seq<Utxo>, utxos: seq<Utxo>)
    requires picked <= sorted && multiset(sorted) == multiset(utxos)
    ensures Total(picked) <= Total(utxos)
    ensures picked == sorted ==> Total(picked) == Total(utxos)
  {
    assert sorted == picked + sorted[|picked|..];
    SubTotal(picked, utxos);
    SubTotal(utxos, sorted);
  }

  lemma {:induction false} TotalConcat(a: seq<Utxo>, b: seq<Utxo>)
    ensures Total(a + b) == Total(a) + Total(b)
  {
    if b == [] {
      assert a + b == a;
    } else {
      assert (a + b)[..|a + b| - 1] == a + b[..|b| - 1];
      TotalConcat(a, b[..|b| - 1]);
    }
  }

  /** Taking one coin out takes exactly its value out. */
  lemma TotalWithout(s: seq<Utxo>, i: nat)
    requires i < |s|
    ensures Total(s) == Total(s[..i] + s[i + 1..]) + Val(s[i])
    ensures multiset(s[..i] + s[i + 1..]) == multiset(s) - multiset{s[i]}
  {
    hide Total, Val;
    assert s == s[..i] + [s[i]] + s[i + 1..];
    TotalConcat(s[..i] + [s[i]], s[i + 1..]);
    TotalConcat(s[..i], [s[i]]);
    TotalConcat(s[..i], s[i + 1..]);
    SingleTotal(s[i]);
  }

  lemma OneLess(part: seq<Utxo>, all: seq<Utxo>, rest: seq<Utxo>)
    requires part != [] && multiset(part) <= multiset(all) && multiset(rest) == multiset(all) - multiset{part[0]}
    ensures multiset(part[1..]) <= multiset(rest)
  {
    assert part == [part[0]] + part[1..];
    assert multiset(part) == multiset{part[0]} + multiset(part[1..]);
  }

  /** A part of the coins is worth no more than all of them. */
  lemma {:induction false} SubTotal(part: seq<Utxo>, all: seq<Utxo>)
    requires multiset(part) <= multiset(all)
    ensures Total(part) <= Total(all)
    decreases |part|
  {
    hide Total, Val;
    if part == [] {
      EmptyTotal(part);
    } else {
      assert part[0] in multiset(part) && part[0] in multiset(all);
      var i := Position(all, part[0]);
      assert part[..0] + part[1..] == part[1..];
      TotalWithout(part, 0);
      TotalWithout(all, i);
      OneLess(part, all, all[..i] + all[i + 1..]);
      SubTotal(part[1..], all[..i] + all[i + 1..]);
    }
  }

  lemma EmptyTotal(s: seq<Utxo>)
    requires s == []
    ensures Total(s) == 0
  {
  }

  lemma SingleTotal(u: Utxo)
    ensures Total([u]) == Val(u)
  {
  }

  /** No selection of as many coins is worth more than the first ones in largest-first order. */
  lemma {:induction false} TopCoins(sorted: seq<Utxo>, s: seq<Utxo>)
    requires Sorted(sorted, NotSmaller)
    requires multiset(s) <= multiset(sorted)
    ensures |s| <= |sorted| && Total(s) <= Total(sorted[..|s|])
    decreases |s|
  {
    hide Total, Val;
    if s == [] {
      EmptyTotal(s);
    } else {
      assert s[0] in multiset(s) && s[0] in multiset(sorted);
      var x, rest := sorted[0], sorted[1..];
      var i := if x in s then Position(s, x) else 0;
      var s' := s[..i] + s[i + 1..];
      TotalWithout(s, i);
      RestCovers(sorted, s, s', s[i]);
      TopCoins(rest, s');
      assert sorted[..|s|] == [x] + rest[..|s'|];
      TotalConcat([x], rest[..|s'|]);
      SingleTotal(x);
      HeadLargest(sorted, s[i]);
    }
  }

  lemma RestCovers(sorted: seq<Utxo>, s: seq<Utxo>, s': seq<Utxo>, out: Utxo)
    requires sorted != [] && multiset(s) <= multiset(sorted)
    requires multiset(s') == multiset(s) - multiset{out} && (sorted[0] in s ==> out == sorted[0])
    ensures multiset(s') <= multiset(sorted[1..])
  {
    assert sorted == [sorted[0]] + sorted[1..];
    assert multiset(sorted) == multiset{sorted[0]} + multiset(sorted[1..]);
  }

  lemma HeadLargest(sorted: seq<Utxo>, u: Utxo)
    requires Sorted(sorted, NotSmaller) && u in sorted
    ensures Val(u) <= Val(sorted[0])
  {
  }

  function Position(s: seq<Utxo>, x: Utxo): (i: nat)
    requires x in s
    ensures i < |s| && s[i] == x
  {
    if s[0] == x then 0 else 1 + Position(s[1..], x)
  }

  /** The selection uses the fewest coins possible. */
  ghost predicate Fewest(utxos: seq<Utxo>, target: nat, picked: seq<Utxo>) {
    forall s: seq<Utxo> {:trigger Total(s)} :: multiset(s) <= multiset(utxos) && Total(s) >= target ==> |picked| <= |s|
  }

  /**
   Largest-first picks coins out of the given ones, the fewest that reach the target, and none of them
   can be spared. Both optimality claims fail exactly for a zero target with coins at hand, where one
   coin is picked although none is needed.
   */
  lemma GreedyOptimal(utxos: seq<Utxo>, target: nat, picked: seq<Utxo>)
    requires Greedy(utxos, target, picked)
    ensures multiset(picked) <= multiset(utxos)
    ensures Fewest(utxos, target, picked) <==> target > 0 || utxos == []
    ensures (forall i :: 0 <= i < |picked| ==> Total(picked[..i] + picked[i + 1..]) < target) <==> target > 0 || utxos == []
  {
    LargestFirstOrder(utxos);
    var sorted := LargestFirst(utxos);
    assert sorted == picked + sorted[|picked|..];
    if target > 0 {
      forall s: seq<Utxo> | multiset(s) <= multiset(utxos) && Total(s) >= target
        ensures |picked| <= |s|
      {
        FewerFallShort(utxos, target, picked, s);
      }
      forall i | 0 <= i < |picked|
        ensures Total(picked[..i] + picked[i + 1..]) < target
      {
        NoneSpared(utxos, target, picked, i);
      }
    } else if utxos != [] {
      var none: seq<Utxo> := [];
      assert Total(none) >= target && multiset(none) <= multiset(utxos);
      assert Total(picked[..0] + picked[1..]) >= target;
    }
  }

  /** A zero target with one coin at hand: the coin is picked although none is needed. */
  lemma ZeroTargetPicks(u: Utxo)
    ensures Greedy([u], 0, [u]) && !Fewest([u], 0, [u])
  {
    hide ToSatoshi;
    LargestFirstOrder([u]);
    var sorted := LargestFirst([u]);
    assert u in multiset(sorted);
    assert sorted == [u];
    GreedyOptimal([u], 0, [u]);
  }

  lemma FewerFallShort(utxos: seq<Utxo>, target: nat, picked: seq<Utxo>, s: seq<Utxo>)
    requires Greedy(utxos, target, picked) && target > 0
    requires multiset(s) <= multiset(utxos) && Total(s) >= target
    ensures |picked| <= |s|
  {
    hide LargestFirst, Val;
    LargestFirstOrder(utxos);
    TopCoins(LargestFirst(utxos), s);
    if |s| < |picked| {
      assert picked[..|s|] == LargestFirst(utxos)[..|s|];
      EmptyTotal([]);
    }
  }

  lemma NoneSpared(utxos: seq<Utxo>, target: nat, picked: seq<Utxo>, i: nat)
    requires Greedy(utxos, target, picked) && target > 0 && i < |picked|
    ensures Total(picked[..i] + picked[i + 1..]) < target
  {
    hide LargestFirst, Total, Val;
    LargestFirstOrder(utxos);
    var last := |picked| - 1;
    TotalWithout(picked, i);
    TotalWithout(picked, last);
    assert picked[..last] + picked[last + 1..] == picked[..last];
    assert i == last || NotSmaller(LargestFirst(utxos)[i], LargestFirst(utxos)[last]);
    NotSmallerMeans(picked[i], picked[last]);
    EmptyTotal([]);
  }

  lemma NotSmallerMeans(a: Utxo, b: Utxo)
    ensures NotSmaller(a, b) ==> Val(a) >= Val(b)
  {
  }

  // ---------- Building ----------

  function OutputTotal(outputs: seq<TxOutput>): nat {
    if outputs == [] then 0 else OutputTotal(outputs[..|outputs| - 1]) + outputs[|outputs| - 1].value
  }

  predicate DistinctOutpoints(utxos: seq<Utxo>) {
    forall i, j :: 0 <= i < j < |utxos| ==> (utxos[i].txid, utxos[i].vout) != (utxos[j].txid, utxos[j].vout)
  }

  predicate Spendable(utxos: seq<Utxo>) {
    && ValidUtxos(utxos)
    && DistinctOutpoints(utxos)
    && forall i :: 0 <= i < |utxos| ==> 0 <= utxos[i].vout <= UINT32_MAX
  }

  /** What remains for the change output, when the amounts are valid. */
  function Change(utxos: seq<Utxo>, amount: AtomicLike, fee: AtomicLike): int
    requires ToSatoshi(amount).Ok? && ToSatoshi(fee).Ok?
  {
    Total(utxos) - ToSatoshi(amount).value - ToSatoshi(fee).value
  }

  /** What the outputs pay to an address. */
  function Received(outputs: seq<TxOutput>, address: string): nat {
    if outputs == [] then 0
    else
      var last := outputs[|outputs| - 1];
      Received(outputs[..|outputs| - 1], address) + if last.address == address then last.value else 0
  }

  /** The first output is the payment; a second one gives the change back, if there is any. */
  predicate Pays(outputs: seq<TxOutput>, to: string, amount: int, changeAddress: string, change: int) {
    && 1 <= |outputs| <= 2
    && outputs[0].address == to && outputs[0].value == amount
    && (|outputs| == 2 <==> change > 0)
    && (|outputs| == 2 ==> outputs[1].address == changeAddress && outputs[1].value == change)
  }

  /** Nobody but the recipient and the owner of the change address gets anything, and each gets exactly their part. */
  lemma PaysWhom(outputs: seq<TxOutput>, to: string, amount: nat, changeAddress: string, change: nat, address: string)
    requires Pays(outputs, to, amount, changeAddress, change)
    ensures Received(outputs, address) == (if address == to then amount else 0) + (if address == changeAddress then change else 0)
    ensures OutputTotal(outputs) == amount + change
  {
    assert outputs[..1] == [outputs[0]] && outputs[..1][..0] == [];
    assert Received(outputs[..1], address) == if address == to then amount else 0;
    assert OutputTotal(outputs[..1]) == amount;
    if |outputs| == 1 {
      assert outputs[..1] == outputs;
    }
  }

  /** The input loop, with the transaction library's refusal of duplicate inputs. */
  method AddInputs(utxos: seq<Utxo>) returns (r: Result<nat, TxError>)
    ensures r.Ok? <==> Spendable(utxos)
    ensures r.Ok? ==> r.value == Total(utxos)
    ensures r != Err(InsufficientFunds)
    ensures r == Err(BadVout) ==> exists i :: 0 <= i < |utxos| && !(0 <= utxos[i].vout <= UINT32_MAX)
    ensures r == Err(DuplicateInput) ==> !DistinctOutpoints(utxos)
    ensures r.Err? && r.error != BadVout && r.error != DuplicateInput ==> exists i :: 0 <= i < |utxos| && ToSatoshi(utxos[i].value) == Err(r.error)
  {
    hide ToSatoshi;
    var totalIn: nat := 0;
    for i := 0 to |utxos|
      invariant totalIn == Total(utxos[..i]) && Spendable(utxos[..i])
    {
      var u := utxos[i];
      if u.vout < 0 || u.vout > UINT32_MAX {
        return Err(BadVout);
      }
      if exists j :: 0 <= j < i && (utxos[j].txid, utxos[j].vout) == (u.txid, u.vout) {
        return Err(DuplicateInput);
      }
      var v := ToSatoshi(u.value);
      if v.Err? {
        ErrorKind(u.value);
        return Err(v.error);
      }
      assert utxos[..i + 1][..i] == utxos[..i];
      totalIn := totalIn + v.value;
    }
    assert utxos[..|utxos|] == utxos;
    return Ok(totalIn);
  }

  /** The value arithmetic of the builder. It fails for funds only when the inputs fall short of amount plus fee. */
  method BuildAndSignP2PKH(utxos: seq<Utxo>, to: string, amount: AtomicLike, changeAddress: string, fee: AtomicLike)
    returns (r: Result<Tx, TxError>)
    ensures r.Ok? <==> Spendable(utxos) && ToSatoshi(amount).Ok? && ToSatoshi(fee).Ok? && Change(utxos, amount, fee) >= 0
    ensures r == Err(InsufficientFunds) <==>
            Spendable(utxos) && ToSatoshi(amount).Ok? && ToSatoshi(fee).Ok? && Change(utxos, amount, fee) < 0
    ensures Spendable(utxos) && ToSatoshi(amount).Err? ==> r == Err(ToSatoshi(amount).error)
    ensures Spendable(utxos) && ToSatoshi(amount).Ok? && ToSatoshi(fee).Err? ==> r == Err(ToSatoshi(fee).error)
    ensures r.Ok? ==> r.value.inputs == utxos
    ensures r.Ok? ==> Pays(r.value.outputs, to, ToSatoshi(amount).value, changeAddress, Change(utxos, amount, fee))
    ensures r.Ok? && to != changeAddress ==>
              && Received(r.value.outputs, to) == ToSatoshi(amount).value
              && Received(r.value.outputs, changeAddress) == Total(utxos) - ToSatoshi(amount).value - ToSatoshi(fee).value
    ensures r.Ok? ==> Total(r.value.inputs) == OutputTotal(r.value.outputs) + ToSatoshi(fee).value
  {
    hide ToSatoshi, OutputTotal, Total, Spendable, Received;
    var added := AddInputs(utxos);
    if added.Err? {
      return Err(added.error);
    }
    var totalIn := added.value;
    var amountSats, feeSats := ToSatoshi(amount), ToSatoshi(fee);
    if amountSats.Err? {
      ErrorKind(amount);
      return Err(amountSats.error);
    }
    if feeSats.Err? {
      ErrorKind(fee);
      return Err(feeSats.error);
    }
    var outputs := [TxOutput(to, amountSats.value)];
    var change: int := totalIn as int - amountSats.value as int - feeSats.value as int;
    if change < 0 {
      return Err(InsufficientFunds);
    }
    if change > 0 {
      outputs := outputs + [TxOutput(changeAddress, change)];
    }
    PaysWhom(outputs, to, amountSats.value, changeAddress, change, to);
    PaysWhom(outputs, to, amountSats.value, changeAddress, change, changeAddress);
    return Ok(Tx(utxos, outputs));
  }

  lemma ErrorKind(value: AtomicLike)
    ensures ToSatoshi(value) != Err(InsufficientFunds) && ToSatoshi(value) != Err(BadVout) && ToSatoshi(value) != Err(DuplicateInput)
  {
  }

  /** Coins selected for amount plus fee always build, and leave exactly the selected surplus as change. */
  lemma SelectionBuilds(utxos: seq<Utxo>, picked: seq<Utxo>, amount: nat, fee: nat)
    requires Spendable(utxos) && Greedy(utxos, amount + fee, picked) && amount + fee <= SATOSHI_MAX
    ensures Spendable(picked)
    ensures ToSatoshi(Str(ToDecimal(amount))) == Ok(amount) && ToSatoshi(Str(ToDecimal(fee))) == Ok(fee)
    ensures Change(picked, Str(ToDecimal(amount)), Str(ToDecimal(fee))) == Total(picked) - (amount + fee) >= 0
  {
    ToSatoshiOfText(amount);
    ToSatoshiOfText(fee);
    LargestFirstOrder(utxos);
    PartSpendable(picked, LargestFirst(utxos), utxos);
  }

  lemma PartSpendable(picked: seq<Utxo>, sorted: seq<Utxo>, utxos: seq<Utxo>)
    requires Spendable(utxos) && multiset(sorted) == multiset(utxos) && picked <= sorted
    ensures Spendable(picked)
  {
    forall i | 0 <= i < |picked|
      ensures picked[i] in utxos
    {
      assert picked[i] == sorted[i] && sorted[i] in multiset(sorted);
    }
    forall i, j | 0 <= i < j < |picked|
      ensures (picked[i].txid, picked[i].vout) != (picked[j].txid, picked[j].vout)
    {
      var a, b :| 0 <= a < |utxos| && 0 <= b < |utxos| && utxos[a] == picked[i] && utxos[b] == picked[j];
      if a == b || utxos[a] == utxos[b] {
        assert sorted == sorted[..j] + sorted[j..];
        assert multiset(sorted[..j])[picked[i]] >= 1 && multiset(sorted[j..])[picked[j]] >= 1;
        assert multiset(utxos)[picked[i]] >= 2;
        Unique(utxos, a);
      }
    }
  }

  /** With distinct outpoints no coin is listed twice. */
  lemma Unique(utxos: seq<Utxo>, a: nat)
    requires DistinctOutpoints(utxos) && a < |utxos|
    ensures multiset(utxos)[utxos[a]] == 1
  {
    assert utxos == utxos[..a] + [utxos[a]] + utxos[a + 1..];
    assert utxos[a] !in utxos[..a] && utxos[a] !in utxos[a + 1..];
  }

  // ---------- Consolidation ----------

  /** Values of the web client: a plain number is refused. */
  datatype WebAtomic = WebBigInt(n: int) | WebText(s: string) | WebNumber

  function AssertAtomic(v: WebAtomic): Result<int, TxError> {
    match v
    case WebBigInt(n) => Ok(n)
    case WebText(s) =>
      var trimmed := Trim(s);
      if trimmed == "" || !Digits(trimmed) then Err(NotDecimal) else Ok(ToNat(trimmed))
    case WebNumber => Err(NotDecimal)
  }

  datatype ConsolidationInput = ConsolidationInput(txid: string, vout: int, value: WebAtomic)

  function CoreInput(input: ConsolidationInput): Utxo {
    var v := AssertAtomic(input.value);
    Utxo(input.txid, input.vout, Str(IntText(if v.Ok? then v.value else -1)))
  }

  function CoreInputs(inputs: seq<ConsolidationInput>): seq<Utxo> {
    seq(|inputs|, i requires 0 <= i < |inputs| => CoreInput(inputs[i]))
  }

  predicate AtomicInputs(inputs: seq<ConsolidationInput>) {
    forall i :: 0 <= i < |inputs| ==> AssertAtomic(inputs[i].value).Ok?
  }

  function InputTotal(inputs: seq<ConsolidationInput>): int {
    if inputs == [] then 0
    else
      var v := AssertAtomic(inputs[|inputs| - 1].value);
      InputTotal(inputs[..|inputs| - 1]) + if v.Ok? then v.value else 0
  }

  method SumInputs(inputs: seq<ConsolidationInput>) returns (r: Result<int, TxError>)
    ensures r.Ok? <==> AtomicInputs(inputs)
    ensures r.Ok? ==> r.value == InputTotal(inputs)
  {
    hide AssertAtomic;
    var totalIn := 0;
    for i := 0 to |inputs|
      invariant AtomicInputs(inputs[..i]) && totalIn == InputTotal(inputs[..i])
    {
      var v := AssertAtomic(inputs[i].value);
      if v.Err? {
        return Err(v.error);
      }
      totalIn := totalIn + v.value;
      assert inputs[..i + 1][..i] == inputs[..i];
    }
    assert inputs[..|inputs|] == inputs;
    return Ok(totalIn);
  }

  datatype Consolidated = Consolidated(tx: Tx, totalIn: int, output: int)

  /** A consolidation that succeeds has exactly one output, which holds everything but the fee. */
  method BuildConsolidationTx(inputs: seq<ConsolidationInput>, address: string, feeSats: WebAtomic)
    returns (r: Result<Consolidated, TxError>)
    ensures r.Ok? <==>
            && AssertAtomic(feeSats).Ok? && AtomicInputs(inputs) && Spendable(CoreInputs(inputs))
            && 0 <= AssertAtomic(feeSats).value < InputTotal(inputs) <= SATOSHI_MAX
    ensures AssertAtomic(feeSats).Ok? && AtomicInputs(inputs) ==>
              var fee, total := AssertAtomic(feeSats).value, InputTotal(inputs);
              && (r == Err(InsufficientFunds) <==> total <= fee)
              && (total > fee && fee < 0 ==> r == Err(NegativeValue))
              && (total > fee >= 0 && total > SATOSHI_MAX ==> r == Err(ExceedsMax))
    ensures r.Ok? ==> r.value.totalIn == InputTotal(inputs) == Total(CoreInputs(inputs))
    ensures r.Ok? ==> r.value.output == InputTotal(inputs) - AssertAtomic(feeSats).value > 0
    ensures r.Ok? ==> r.value.tx == Tx(CoreInputs(inputs), [TxOutput(address, r.value.output)])
  {
    hide ToSatoshi, Total, OutputTotal, InputTotal, CoreInputs, Spendable, AssertAtomic;
    var fee := AssertAtomic(feeSats);
    if fee.Err? {
      return Err(fee.error);
    }
    var summed := SumInputs(inputs);
    if summed.Err? {
      return Err(summed.error);
    }
    var totalIn := summed.value;
    var output := totalIn - fee.value;
    if output <= 0 {
      return Err(InsufficientFunds);
    }
    if fee.value < 0 {
      return Err(NegativeValue);
    }
    if totalIn > SATOSHI_MAX {
      return Err(ExceedsMax);
    }
    ToSatoshiOfText(output);
    ToSatoshiOfText(fee.value);
    CoreTotal(inputs);
    var built := BuildAndSignP2PKH(CoreInputs(inputs), address, Str(IntText(output)), address, Str(IntText(fee.value)));
    if built.Err? {
      return Err(built.error);
    }
    return Ok(Consolidated(built.value, totalIn, output));
  }

  lemma {:induction false} CoreTotal(inputs: seq<ConsolidationInput>)
    requires AtomicInputs(inputs)
    ensures Spendable(CoreInputs(inputs)) ==> Total(CoreInputs(inputs)) == InputTotal(inputs)
  {
    hide ToSatoshi;
    if inputs != [] {
      var last := |inputs| - 1;
      CoreTotal(inputs[..last]);
      assert CoreInputs(inputs)[..last] == CoreInputs(inputs[..last]);
      if Spendable(CoreInputs(inputs)) {
        var v := AssertAtomic(inputs[last].value).value;
        assert ToSatoshi(CoreInputs(inputs)[last].value).Ok?;
        if v >= 0 {
          ToSatoshiOfText(v);
        } else {
          MinusRefused(v);
        }
        assert forall i :: 0 <= i < last ==> CoreInputs(inputs[..last])[i] == CoreInputs(inputs)[i];
      }
    }
  }

  lemma MinusRefused(n: int)
    requires n < 0
    ensures ToSatoshi(Str(IntText(n))) == Err(NotDecimal)
  {
    TrimNothing(IntText(n));
    assert IntText(n)[0] == '-';
  }
}
