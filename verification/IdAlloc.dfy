/** Id allocation: one counter for all item types, read off the ids that are in use. */
module IdAlloc {
  import opened Columns
  import opened ItemTypes
  import opened Seqs
  import opened Wrappers

  const U32_MAX: nat := 0xFFFF_FFFF
  const GLOBAL_ID_BASE: nat := 1299

  // ------------------------------------------------------- decimal numbers

  predicate IsDigit(c: char) {
    '0' <= c <= '9'
  }

  predicate AllDigits(s: string) {
    forall k :: 0 <= k < |s| ==> IsDigit(s[k])
  }

  function Digit(n: nat): char
    requires n < 10
  {
    '0' + n as char
  }

  function Decimal(n: nat): (s: string)
    ensures s != [] && AllDigits(s)
  {
    if n < 10 then [Digit(n)] else Decimal(n / 10) + [Digit(n % 10)]
  }

  function DigitValue(c: char): nat
    requires IsDigit(c)
  {
    c as nat - '0' as nat
  }

  /** The value of a string of digits. */
  function Value(s: string): nat
    requires AllDigits(s)
  {
    if s == [] then 0 else 10 * Value(s[..|s| - 1]) + DigitValue(s[|s| - 1])
  }

  /** Reads an unsigned 32-bit number: an optional plus sign and digits, refused when it does not fit. */
  function ParseU32(s: string): Option<nat> {
    var digits := if s != [] && s[0] == '+' then s[1..] else s;
    if digits == [] || !AllDigits(digits) then None
    else if Value(digits) > U32_MAX then None
    else Some(Value(digits))
  }

  lemma {:induction false} ValueOfDecimal(n: nat)
    ensures Value(Decimal(n)) == n
  {
    if n >= 10 {
      ValueOfDecimal(n / 10);
      assert (Decimal(n / 10) + [Digit(n % 10)])[..|Decimal(n)| - 1] == Decimal(n / 10);
    }
  }

  lemma ParseDecimal(n: nat)
    ensures ParseU32(Decimal(n)) == if n <= U32_MAX then Some(n) else None
  {
    ValueOfDecimal(n);
    assert IsDigit(Decimal(n)[0]);
  }

  // --------------------------------------------------------- numbers in use

  function StripPrefix(s: string, prefix: string): Option<string> {
    if |prefix| <= |s| && s[..|prefix|] == prefix then Some(s[|prefix|..]) else None
  }

  /** The part before the first dot. */
  function BeforeDot(s: string): string {
    if s == [] || s[0] == '.' then [] else [s[0]] + BeforeDot(s[1..])
  }

  /** The number that `id` uses under `prefix`, 0 if none. */
  function NumberUnder(id: Id, prefix: string): nat {
    match StripPrefix(id, prefix + "-")
    case Some(rest) => (match ParseU32(BeforeDot(rest)) case Some(n) => n case None => 0)
    case None => 0
  }

  function Max(a: nat, b: nat): nat {
    if b > a then b else a
  }

  /** The greatest number that `id` uses under any of `prefixes`. */
  ghost function MaxUnder(id: Id, prefixes: set<string>): (m: nat)
    ensures forall p :: p in prefixes ==> NumberUnder(id, p) <= m
    ensures m > 0 ==> exists p :: p in prefixes && NumberUnder(id, p) == m
  {
    if prefixes == {} then 0 else
      var p :| p in prefixes;
      Max(MaxUnder(id, prefixes - {p}), NumberUnder(id, p))
  }

  /** The greatest number in use under `prefixes`, 0 if there is none. */
  ghost function MaxNumber(rows: seq<Row>, prefixes: set<string>): nat {
    if rows == [] then 0
    else Max(MaxNumber(rows[..|rows| - 1], prefixes), MaxUnder(IdOf(rows[|rows| - 1]), prefixes))
  }

  lemma {:induction false} MaxNumberBounds(rows: seq<Row>, prefixes: set<string>, k: nat)
    requires k < |rows|
    ensures MaxUnder(IdOf(rows[k]), prefixes) <= MaxNumber(rows, prefixes)
  {
    if k < |rows| - 1 {
      MaxNumberBounds(rows[..|rows| - 1], prefixes, k);
    }
  }

  lemma MaxNumberStep(before: seq<Row>, rows: seq<Row>, k: nat, prefix: string)
    requires k < |rows|
    ensures MaxNumber(before + rows[..k + 1], {prefix}) ==
            Max(MaxNumber(before + rows[..k], {prefix}), NumberUnder(IdOf(rows[k]), prefix))
  {
    assert (before + rows[..k + 1])[..|before| + k] == before + rows[..k];
  }

  method MaxIdInBatch(batch: Batch, prefix: string, maxId0: nat, ghost before: seq<Row>) returns (maxId: nat)
    requires ValidBatch(batch) && maxId0 == MaxNumber(before, {prefix})
    ensures maxId == MaxNumber(before + RowsOf(batch), {prefix})
  {
    maxId := maxId0;
    ghost var rows := RowsOf(batch);
    assert before + rows[..0] == before;
    for r := 0 to batch.rows
      invariant maxId == MaxNumber(before + rows[..r], {prefix})
    {
      MaxNumberStep(before, rows, r, prefix);
      maxId := Max(maxId, NumberUnder(batch.columns[ID][r].text.value, prefix));
    }
    assert rows[..batch.rows] == rows;
  }

  method MaxIdForPrefix(batches: seq<Batch>, prefix: string) returns (maxId: nat)
    requires ValidBatches(batches)
    ensures maxId == MaxNumber(AllRows(batches), {prefix})
  {
    maxId := 0;
    for b := 0 to |batches|
      invariant maxId == MaxNumber(AllRows(batches[..b]), {prefix})
    {
      maxId := MaxIdInBatch(batches[b], prefix, maxId, AllRows(batches[..b]));
      assert batches[..b + 1][..b] == batches[..b];
    }
    assert batches[..|batches|] == batches;
  }

  ghost function PrefixesOf(types: seq<ItemType>): set<string> {
    if types == [] then {} else PrefixesOf(types[..|types| - 1]) + Elements(AllPrefixes(types[|types| - 1]))
  }

  /** The prefixes of all item types, current and legacy. */
  ghost function Prefixes(): set<string> {
    PrefixesOf(DEV + RESEARCH)
  }

  lemma MaxUnderJoin(id: Id, ps: set<string>, qs: set<string>)
    ensures MaxUnder(id, ps + qs) == Max(MaxUnder(id, ps), MaxUnder(id, qs))
  {
  }

  lemma {:induction false} MaxNumberJoin(rows: seq<Row>, ps: set<string>, qs: set<string>)
    ensures MaxNumber(rows, ps + qs) == Max(MaxNumber(rows, ps), MaxNumber(rows, qs))
  {
    if rows != [] {
      MaxNumberJoin(rows[..|rows| - 1], ps, qs);
      MaxUnderJoin(IdOf(rows[|rows| - 1]), ps, qs);
    }
  }

  lemma {:induction false} NoPrefixes(rows: seq<Row>)
    ensures MaxNumber(rows, {}) == 0
  {
    if rows != [] {
      NoPrefixes(rows[..|rows| - 1]);
    }
  }

  lemma MaxNumberPrefix(rows: seq<Row>, prefixes: seq<string>, j: nat)
    requires j < |prefixes|
    ensures MaxNumber(rows, Elements(prefixes[..j + 1])) ==
            Max(MaxNumber(rows, Elements(prefixes[..j])), MaxNumber(rows, {prefixes[j]}))
  {
    PrefixStep(prefixes, j);
    MaxNumberJoin(rows, Elements(prefixes[..j]), {prefixes[j]});
  }

  method MaxIdForPrefixes(batches: seq<Batch>, prefixes: seq<string>, maxId0: nat) returns (maxId: nat)
    requires ValidBatches(batches)
    ensures maxId == Max(maxId0, MaxNumber(AllRows(batches), Elements(prefixes)))
  {
    maxId := maxId0;
    NoPrefixes(AllRows(batches));
    assert Elements(prefixes[..0]) == {};
    for j := 0 to |prefixes|
      invariant maxId == Max(maxId0, MaxNumber(AllRows(batches), Elements(prefixes[..j])))
    {
      MaxNumberPrefix(AllRows(batches), prefixes, j);
      var typeMax := MaxIdForPrefix(batches, prefixes[j]);
      if typeMax > maxId {
        maxId := typeMax;
      }
    }
    assert prefixes[..|prefixes|] == prefixes;
  }

  lemma MaxNumberType(rows: seq<Row>, types: seq<ItemType>, i: nat)
    requires i < |types|
    ensures MaxNumber(rows, PrefixesOf(types[..i + 1])) ==
            Max(MaxNumber(rows, PrefixesOf(types[..i])), MaxNumber(rows, Elements(AllPrefixes(types[i]))))
  {
    assert types[..i + 1][..i] == types[..i];
    MaxNumberJoin(rows, PrefixesOf(types[..i]), Elements(AllPrefixes(types[i])));
  }

  /** The scan over all prefixes of all types. */
  method GlobalMaxId(batches: seq<Batch>) returns (maxId: nat)
    requires ValidBatches(batches)
    ensures maxId == MaxNumber(AllRows(batches), Prefixes())
  {
    maxId := 0;
    var types := DEV + RESEARCH;
    NoPrefixes(AllRows(batches));
    for i := 0 to |types|
      invariant maxId == MaxNumber(AllRows(batches), PrefixesOf(types[..i]))
    {
      MaxNumberType(AllRows(batches), types, i);
      maxId := MaxIdForPrefixes(batches, AllPrefixes(types[i]), maxId);
    }
    assert types[..|types|] == types;
  }

  // ------------------------------------------------------------ allocation

  /** 32-bit unsigned addition of one. */
  function Next(n: nat): nat {
    if n >= U32_MAX then 0 else n + 1
  }

  function IdText(t: ItemType, n: nat): Id {
    Prefix(t) + "-" + Decimal(n)
  }

  /** The number that a new item of any type gets. */
  ghost function NextNumber(rows: seq<Row>): nat {
    Next(Max(MaxNumber(rows, Prefixes()), GLOBAL_ID_BASE))
  }

  method AllocateId(batches: seq<Batch>, t: ItemType) returns (id: Id)
    requires ValidBatches(batches)
    ensures id == IdText(t, NextNumber(AllRows(batches)))
  {
    var m := GlobalMaxId(batches);
    id := IdText(t, Next(Max(m, GLOBAL_ID_BASE)));
  }

  // ---------------------------------------------------------- uniqueness

  predicate NoDash(s: string) {
    forall k :: 0 <= k < |s| ==> s[k] != '-'
  }

  lemma PrefixesHaveNoDash(t: ItemType, p: string)
    requires p in AllPrefixes(t)
    ensures NoDash(p)
  {
  }

  /** An id starts with just one dash-free prefix. */
  lemma OnePrefix(p: string, q: string, rest: string)
    requires NoDash(p) && NoDash(q) && StripPrefix(p + "-" + rest, q + "-").Some?
    ensures p == q
  {
    var s, pd, qd := p + "-" + rest, p + "-", q + "-";
    assert s[..|qd|] == qd;
    assert s[|p|] == '-' && qd[|q|] == '-' && s[|q|] == qd[|q|];
    assert forall k :: 0 <= k < |p| && |p| == |q| ==> p[k] == s[k] && q[k] == qd[k] && s[k] == qd[k];
  }

  lemma {:induction false} NoDotInDigits(s: string)
    requires AllDigits(s)
    ensures BeforeDot(s) == s
  {
    if s != [] {
      assert IsDigit(s[0]);
      NoDotInDigits(s[1..]);
    }
  }

  /** Print and parse: the number of an allocated id is read back under its own prefix and no other. */
  lemma NumberOfAllocated(t: ItemType, n: nat)
    requires n <= U32_MAX
    ensures MaxUnder(IdText(t, n), Prefixes()) == n
  {
    var id, own := IdText(t, n), Prefix(t);
    var rest := Decimal(n);
    assert id[..|own + "-"|] == own + "-" && id[|own + "-"|..] == rest;
    NoDotInDigits(rest);
    ParseDecimal(n);
    assert NumberUnder(id, own) == n;
    OwnPrefixIsKnown(t);
    forall p | p in Prefixes()
      ensures NumberUnder(id, p) <= n
    {
      KnownPrefixes(DEV + RESEARCH, p);
      var u :| p in AllPrefixes(u);
      PrefixesHaveNoDash(u, p);
      PrefixesHaveNoDash(t, own);
      if StripPrefix(id, p + "-").Some? {
        OnePrefix(own, p, rest);
      }
    }
  }

  lemma {:induction false} KnownPrefixes(types: seq<ItemType>, p: string)
    ensures p in PrefixesOf(types) <==> exists t :: t in types && p in AllPrefixes(t)
  {
    if types != [] {
      KnownPrefixes(types[..|types| - 1], p);
      assert types == types[..|types| - 1] + [types[|types| - 1]];
    }
  }

  lemma OwnPrefixIsKnown(t: ItemType)
    ensures Prefix(t) in Prefixes()
  {
    AllTypes(t);
    assert Prefix(t) == AllPrefixes(t)[0];
    KnownPrefixes(DEV + RESEARCH, Prefix(t));
  }

  /** The counter moves past every number in use, and past the base, exactly when it has not reached the end of 32 bits. */
  lemma CounterAdvances(rows: seq<Row>)
    ensures NextNumber(rows) > GLOBAL_ID_BASE <==> MaxNumber(rows, Prefixes()) < U32_MAX
    ensures NextNumber(rows) > MaxNumber(rows, Prefixes()) <==> MaxNumber(rows, Prefixes()) < U32_MAX
  {
  }

  /** Until the counter is exhausted, an allocated id is not the id of any row, deleted ones included. */
  lemma AllocatedIsFresh(rows: seq<Row>, t: ItemType, k: nat)
    requires MaxNumber(rows, Prefixes()) < U32_MAX && k < |rows|
    ensures IdOf(rows[k]) != IdText(t, NextNumber(rows))
  {
    CounterAdvances(rows);
    NumberOfAllocated(t, NextNumber(rows));
    MaxNumberBounds(rows, Prefixes(), k);
  }
}
