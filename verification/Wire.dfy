/** The Protocol Buffers wire format: varints, 32-bit integers, tagged fields. */
module Wire {
  import opened Options

  type byte = x: int | 0 <= x < 256
  type Bytes = seq<byte>
  type int32 = x: int | -0x8000_0000 <= x < 0x8000_0000

  const TWO_TO_31 := 0x8000_0000
  const TWO_TO_32 := 0x1_0000_0000
  const TWO_TO_64 := 0x1_0000_0000_0000_0000

  /** What a reader returns: a value and the bytes behind it. */
  datatype Read<T> = Fail | Ok(value: T, rest: Bytes)

  // ---- base 128 varints ----

  function Varint(n: nat): Bytes {
    if n < 128 then [n] else [128 + n % 128] + Varint(n / 128)
  }

  /** Reads at most room bytes. */
  function ReadVarint(s: Bytes, room: nat): Read<nat> {
    if s == [] || room == 0 then Fail
    else if s[0] < 128 then Ok(s[0], s[1..])
    else match ReadVarint(s[1..], room - 1)
      case Fail => Fail
      case Ok(v, rest) => Ok(s[0] - 128 + 128 * v, rest)
  }

  function Pow128(k: nat): nat {
    if k == 0 then 1 else 128 * Pow128(k - 1)
  }

  lemma {:induction false} VarintReads(n: nat, room: nat, rest: Bytes)
    requires n < Pow128(room) && room > 0
    ensures ReadVarint(Varint(n) + rest, room) == Ok(n, rest)
  {
    if n < 128 {
      assert (Varint(n) + rest)[1..] == rest;
    } else {
      SmallerPower(n, room);
      VarintReads(n / 128, room - 1, rest);
      assert (Varint(n) + rest)[0] == 128 + n % 128 && (Varint(n) + rest)[1..] == Varint(n / 128) + rest;
    }
  }

  lemma SmallerPower(n: nat, room: nat)
    requires 128 <= n < Pow128(room)
    ensures room > 1 && n / 128 < Pow128(room - 1)
  {
    assert Pow128(room) == 128 * Pow128(room - 1);
    assert Pow128(0) == 1;
  }

  lemma Powers()
    ensures Pow128(1) == 0x80 && Pow128(2) == 0x4000 && Pow128(3) == 0x20_0000 && Pow128(4) == 0x1000_0000
    ensures Pow128(5) == 0x8_0000_0000
    ensures Pow128(9) == 0x8000_0000_0000_0000 && Pow128(10) > TWO_TO_64
  {
    assert Pow128(1) == 128 * Pow128(0);
    assert Pow128(2) == 128 * Pow128(1);
    assert Pow128(3) == 128 * Pow128(2);
    assert Pow128(4) == 128 * Pow128(3);
    assert Pow128(5) == 128 * Pow128(4);
    assert Pow128(6) == 128 * Pow128(5);
    assert Pow128(7) == 128 * Pow128(6);
    assert Pow128(8) == 128 * Pow128(7);
    assert Pow128(9) == 128 * Pow128(8);
    assert Pow128(10) == 128 * Pow128(9);
  }

  lemma VarintReads64(n: nat, rest: Bytes)
    requires n < TWO_TO_64
    ensures ReadVarint(Varint(n) + rest, 10) == Ok(n, rest)
  {
    Powers();
    VarintReads(n, 10, rest);
  }

  lemma ReadVarintShrinks(s: Bytes, room: nat)
    ensures ReadVarint(s, room).Ok? ==> |ReadVarint(s, room).rest| < |s|
  {
  }

  // ---- sizes ----

  function VarintSize32(n: nat): nat {
    if n < 0x80 then 1 else if n < 0x4000 then 2 else if n < 0x20_0000 then 3 else if n < 0x1000_0000 then 4 else 5
  }

  function Int32Size(v: int32): nat {
    if v < 0 then 10 else VarintSize32(v)
  }

  lemma {:induction false} VarintLength(n: nat, k: nat)
    requires k > 0 && n < Pow128(k) && (k == 1 || Pow128(k - 1) <= n)
    ensures |Varint(n)| == k
  {
    if k > 1 {
      assert Pow128(k) == 128 * Pow128(k - 1) && Pow128(k - 1) == 128 * Pow128(k - 2);
      PowPositive(k - 2);
      VarintLength(n / 128, k - 1);
    } else {
      assert Pow128(1) == 128 * Pow128(0);
    }
  }

  lemma PowPositive(k: nat)
    ensures Pow128(k) >= 1
  {
  }

  lemma VarintSizeIs(n: nat)
    requires n < TWO_TO_32
    ensures |Varint(n)| == VarintSize32(n)
  {
    Powers();
    VarintLength(n, VarintSize32(n));
  }

  // ---- integers ----

  /** Negative numbers are sign-extended to 64 bits. */
  function ToWire(v: int32): nat {
    if v < 0 then TWO_TO_64 + v else v
  }

  /** The low 32 bits, as a signed number. */
  function FromWire(n: nat): int32 {
    var m := n % TWO_TO_32;
    if m >= TWO_TO_31 then m - TWO_TO_32 else m
  }

  lemma FromToWire(v: int32)
    ensures FromWire(ToWire(v)) == v && ToWire(v) < TWO_TO_64
  {
    if v < 0 {
      assert TWO_TO_64 + v == TWO_TO_32 * (TWO_TO_32 - 1) + (TWO_TO_32 + v);
      ModOf(TWO_TO_32 - 1, TWO_TO_32 + v);
    }
  }

  lemma ModOf(q: nat, r: nat)
    requires r < TWO_TO_32
    ensures (TWO_TO_32 * q + r) % TWO_TO_32 == r
  {
  }

  lemma Int32SizeIs(v: int32)
    ensures |Varint(ToWire(v))| == Int32Size(v)
  {
    if v < 0 {
      Powers();
      VarintLength(ToWire(v), 10);
    } else {
      VarintSizeIs(v);
    }
  }

  function ReadInt32(s: Bytes): Read<int32> {
    match ReadVarint(s, 10)
    case Fail => Fail
    case Ok(n, rest) => Ok(FromWire(n), rest)
  }

  function ReadBool(s: Bytes): Read<bool> {
    match ReadVarint(s, 10)
    case Fail => Fail
    case Ok(n, rest) => Ok(n % TWO_TO_64 != 0, rest)
  }

  lemma Int32Reads(v: int32, rest: Bytes)
    ensures ReadInt32(Varint(ToWire(v)) + rest) == Ok(v, rest)
  {
    FromToWire(v);
    VarintReads64(ToWire(v), rest);
  }

  lemma BoolReads(rest: Bytes)
    ensures ReadBool(Varint(1) + rest) == Ok(true, rest)
  {
    VarintReads64(1, rest);
  }

  /** A length prefix that fits an int, and that many bytes. */
  function ReadBlob(s: Bytes): Read<Bytes> {
    match ReadVarint(s, 10)
    case Fail => Fail
    case Ok(n, rest) => if n < TWO_TO_31 && n <= |rest| then Ok(rest[..n], rest[n..]) else Fail
  }

  lemma BlobReads(data: Bytes, rest: Bytes)
    requires |data| < TWO_TO_31
    ensures ReadBlob(Varint(|data|) + data + rest) == Ok(data, rest)
  {
    VarintReads64(|data|, data + rest);
    assert Varint(|data|) + data + rest == Varint(|data|) + (data + rest);
  }

  // ---- fields ----

  /** A field on the wire: its tag, and a number or a block of bytes. */
  datatype Entry = Num(tag: nat, n: nat) | Blob(tag: nat, data: Bytes)

  function Payload(e: Entry): Bytes {
    match e
    case Num(_, n) => Varint(n)
    case Blob(_, data) => Varint(|data|) + data
  }

  function EncodeEntry(e: Entry): Bytes {
    Varint(e.tag) + Payload(e)
  }

  lemma Associate(a: Bytes, b: Bytes, c: Bytes)
    ensures (a + b) + c == a + (b + c)
  {
  }

  /** The pieces one after the other. */
  function Join<T>(f: T -> Bytes, s: seq<T>): Bytes {
    if s == [] then [] else f(s[0]) + Join(f, s[1..])
  }

  lemma JoinOne<T>(f: T -> Bytes, x: T)
    ensures Join(f, [x]) == f(x)
  {
    assert [x][1..] == [];
    assert Join(f, [x]) == f(x) + Join(f, []);
  }

  lemma {:induction false} JoinConcat<T>(f: T -> Bytes, a: seq<T>, b: seq<T>)
    ensures Join(f, a + b) == Join(f, a) + Join(f, b)
  {
    if a == [] {
      assert a + b == b;
    } else {
      JoinConcat(f, a[1..], b);
      assert (a + b)[0] == a[0] && (a + b)[1..] == a[1..] + b;
    }
  }

  function EncodeAll(es: seq<Entry>): Bytes {
    Join(EncodeEntry, es)
  }

  // ---- the parser loop ----

  /** What a message does with one field: not its own, malformed, or taken. */
  datatype StepResult<M> = Unusual | Broken | Took(msg: M, rest: Bytes)

  /** Where the loop ends: clean when all input has been used up. */
  datatype Outcome<M> = Failed | Parsed(msg: M, rest: Bytes, clean: bool)

  type Step<!M> = (M, nat, Bytes) -> StepResult<M>

  /** Skipping an unknown field, given its tag. */
  type Skip = (nat, Bytes) -> Option<Bytes>

  function Parse<M>(step: Step<M>, skip: Skip, m: M, input: Bytes): Outcome<M>
    decreases |input|
  {
    if input == [] then Parsed(m, [], true) else
    var t := ReadVarint(input, 10);
    ReadVarintShrinks(input, 10);
    if t.Fail? then Parsed(m, input, false) else
    var tag, rest := t.value % TWO_TO_32, t.rest;
    match step(m, tag, rest)
    case Took(m', rest') => if |rest'| <= |rest| then Parse(step, skip, m', rest') else Failed
    case Broken => Failed
    case Unusual =>
      if tag == 0 || tag % 8 == 4 then Parsed(m, rest, false)
      else
        var r := skip(tag, rest);
        if r.Some? && |r.value| <= |rest| then Parse(step, skip, m, r.value) else Failed
  }

  /** The message takes this field whatever follows. */
  ghost predicate Handled<M(!new)>(step: Step<M>, e: Entry) {
    && 0 < e.tag < TWO_TO_32
    && forall m, rest {:trigger step(m, e.tag, Payload(e) + rest)} ::
         var r := step(m, e.tag, Payload(e) + rest);
         r.Took? && r.rest == rest && r.msg == Taken(step, m, e)
  }

  function Taken<M>(step: Step<M>, m: M, e: Entry): M {
    match step(m, e.tag, Payload(e))
    case Took(m', _) => m'
    case _ => m
  }

  function Fold<M>(step: Step<M>, m: M, es: seq<Entry>): M {
    if es == [] then m else Fold(step, Taken(step, m, es[0]), es[1..])
  }

  lemma ParseEntry<M(!new)>(step: Step<M>, skip: Skip, m: M, e: Entry, rest: Bytes)
    requires Handled(step, e)
    ensures Parse(step, skip, m, EncodeEntry(e) + rest) == Parse(step, skip, Taken(step, m, e), rest)
  {
    VarintReads64(e.tag, Payload(e) + rest);
    assert EncodeEntry(e) + rest == Varint(e.tag) + (Payload(e) + rest);
  }

  /** Parsing encoded fields takes them one after the other. */
  lemma {:induction false} ParseFields<M(!new)>(step: Step<M>, skip: Skip, m: M, es: seq<Entry>, rest: Bytes)
    requires forall e :: e in es ==> Handled(step, e)
    ensures Parse(step, skip, m, EncodeAll(es) + rest) == Parse(step, skip, Fold(step, m, es), rest)
  {
    if es == [] {
      assert EncodeAll(es) + rest == rest;
    } else {
      assert EncodeAll(es) + rest == EncodeEntry(es[0]) + (EncodeAll(es[1..]) + rest);
      ParseEntry(step, skip, m, es[0], EncodeAll(es[1..]) + rest);
      ParseFields(step, skip, Taken(step, m, es[0]), es[1..], rest);
    }
  }

  lemma {:induction false} FoldConcat<M>(step: Step<M>, m: M, a: seq<Entry>, b: seq<Entry>)
    ensures Fold(step, m, a + b) == Fold(step, Fold(step, m, a), b)
  {
    if a == [] {
      assert a + b == b;
    } else {
      assert (a + b)[1..] == a[1..] + b;
      FoldConcat(step, Taken(step, m, a[0]), a[1..], b);
    }
  }

  /** The fields are handled, and together they turn every m into f(m). */
  ghost predicate Does<M(!new)>(step: Step<M>, es: seq<Entry>, f: M -> M) {
    (forall e :: e in es ==> Handled(step, e)) && forall m {:trigger Fold(step, m, es)} :: Fold(step, m, es) == f(m)
  }

  lemma DoesOne<M(!new)>(step: Step<M>, e: Entry, f: M -> M)
    requires 0 < e.tag < TWO_TO_32
    requires forall m, rest {:trigger step(m, e.tag, Payload(e) + rest)} ::
      step(m, e.tag, Payload(e) + rest) == Took(f(m), rest)
    ensures Does(step, [e], f)
  {
    forall m ensures Taken(step, m, e) == f(m) {
      assert Payload(e) + [] == Payload(e);
      assert step(m, e.tag, Payload(e) + []) == Took(f(m), []);
    }
    forall m ensures Fold(step, m, [e]) == f(m) {
      assert [e][1..] == [];
    }
  }

  lemma DoesThen<M(!new)>(step: Step<M>, a: seq<Entry>, f: M -> M, b: seq<Entry>, g: M -> M, h: M -> M)
    requires Does(step, a, f) && Does(step, b, g) && forall m :: h(m) == g(f(m))
    ensures Does(step, a + b, h)
  {
    forall m ensures Fold(step, m, a + b) == h(m) {
      FoldConcat(step, m, a, b);
      assert Fold(step, f(m), b) == g(f(m));
    }
  }

  lemma DoesNothing<M(!new)>(step: Step<M>, f: M -> M)
    requires forall m :: f(m) == m
    ensures Does(step, [], f)
  {
  }

  lemma DoesParse<M(!new)>(step: Step<M>, skip: Skip, es: seq<Entry>, f: M -> M, m: M, rest: Bytes)
    requires Does(step, es, f)
    ensures Parse(step, skip, m, EncodeAll(es) + rest) == Parse(step, skip, f(m), rest)
  {
    ParseFields(step, skip, m, es, rest);
  }
}
