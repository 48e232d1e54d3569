/**
  Deterministic entity ids: a hashed label, its first 128 bits as 26 Crockford Base32 digits, and
  the factory that counts one offset per kind.
 */
module EntityIds {
  import opened Text

  const LOW: string := "0123456789ABCDEF"
  const HIGH: string := "GHJKMNPQRSTVWXYZ"
  const ALPHABET: string := LOW + HIGH
  const DIGITS := 26
  const TWO_TO_128 := 0x1_0000_0000_0000_0000_0000_0000_0000_0000

  type Value = v: nat | v < TWO_TO_128

  lemma LowAscends(i: nat)
    requires i < 15
    ensures LOW[i] < LOW[i + 1]
  {
  }

  lemma HighAscends(i: nat)
    requires i < 15
    ensures HIGH[i] < HIGH[i + 1]
  {
  }

  lemma HalvesMeet()
    ensures |LOW| == |HIGH| == 16 && LOW[15] < HIGH[0]
  {
  }

  lemma {:induction false} AlphabetAscends(i: nat, j: nat)
    requires i < j < 32
    ensures |ALPHABET| == 32 && ALPHABET[i] < ALPHABET[j]
    decreases j - i
  {
    hide LOW, HIGH;
    HalvesMeet();
    if i + 1 < j {
      AlphabetAscends(i, j - 1);
    }
    if j < 16 {
      LowAscends(j - 1);
    } else if j > 16 {
      HighAscends(j - 17);
    }
  }

  function Symbol(d: nat): char
    requires d < 32
  {
    ALPHABET[d]
  }

  /** Where a character first stands in a string. */
  function IndexOf(s: string, c: char): (i: nat)
    requires c in s
    ensures i < |s| && s[i] == c
  {
    if s[0] == c then 0 else 1 + IndexOf(s[1..], c)
  }

  /** The digit a symbol of the alphabet stands for. */
  function Digit(c: char): nat
    requires c in ALPHABET
  {
    IndexOf(ALPHABET, c)
  }

  lemma {:induction false} DigitOfSymbol(d: nat)
    requires d < 32
    ensures Symbol(d) in ALPHABET && Digit(Symbol(d)) == d
  {
    hide IndexOf;
    var e := Digit(Symbol(d));
    if e < d {
      AlphabetAscends(e, d);
    } else if d < e {
      AlphabetAscends(d, e);
    }
  }

  predicate Base32(s: string) {
    forall i | 0 <= i < |s| :: s[i] in ALPHABET
  }

  /** The `n` low-order digits of a value, most significant first. */
  function Encode(v: nat, n: nat): (s: string)
    ensures |s| == n && Base32(s)
  {
    if n == 0 then "" else Encode(v / 32, n - 1) + [Symbol(v % 32)]
  }

  function Decode(s: string): nat
    requires Base32(s)
  {
    if s == "" then 0 else Decode(s[..|s| - 1]) * 32 + Digit(s[|s| - 1])
  }

  function Pow32(n: nat): (p: nat)
    ensures 0 < p
  {
    if n == 0 then 1 else 32 * Pow32(n - 1)
  }

  lemma {:induction false} DecodeEncode(v: nat, n: nat)
    requires v < Pow32(n)
    ensures Decode(Encode(v, n)) == v
  {
    hide Symbol, Digit, Base32;
    if n > 0 {
      var s := Encode(v, n);
      assert s[..n - 1] == Encode(v / 32, n - 1);
      DecodeEncode(v / 32, n - 1);
      DigitOfSymbol(v % 32);
    }
  }

  lemma DecodeLast(front: string, c: char)
    requires Base32(front + [c])
    ensures Base32(front) && c in ALPHABET && Decode(front + [c]) == Decode(front) * 32 + Digit(c)
    ensures Digit(c) < 32 && Symbol(Digit(c)) == c
  {
    hide IndexOf;
    var s := front + [c];
    assert s[..|front|] == front && s[|front|] == c;
    assert forall i | 0 <= i < |front| :: front[i] == s[i];
    assert |ALPHABET| == 32;
  }

  lemma EncodeLast(v: nat, d: nat, n: nat)
    requires d < 32
    ensures Encode(v * 32 + d, n + 1) == Encode(v, n) + [Symbol(d)]
  {
    hide Symbol, Base32;
    assert (v * 32 + d) / 32 == v && (v * 32 + d) % 32 == d;
  }

  lemma {:induction false} EncodeDecode(s: string)
    requires Base32(s)
    ensures Decode(s) < Pow32(|s|)
    ensures Encode(Decode(s), |s|) == s
  {
    hide Symbol, Digit, Encode, Base32, ALPHABET;
    if s == "" {
      EncodeStep(0, 0);
    } else {
      var front, last := s[..|s| - 1], s[|s| - 1];
      assert s == front + [last];
      DecodeLast(front, last);
      EncodeDecode(front);
      EncodeLast(Decode(front), Digit(last), |front|);
    }
  }

  // ----- order -----

  lemma {:induction false} BeforeLast(a: string, b: string, x: char, y: char)
    requires |a| == |b|
    ensures Before(a + [x], b + [y]) <==> Before(a, b) || (a == b && x < y)
  {
    if a != "" {
      BeforeLast(a[1..], b[1..], x, y);
      assert (a + [x])[1..] == a[1..] + [x] && (b + [y])[1..] == b[1..] + [y];
      assert a == [a[0]] + a[1..] && b == [b[0]] + b[1..];
    }
  }

  lemma SymbolsOrdered(c: nat, d: nat)
    requires c < 32 && d < 32
    ensures Symbol(c) < Symbol(d) <==> c < d
    ensures Symbol(c) == Symbol(d) <==> c == d
  {
    if c < d {
      AlphabetAscends(c, d);
    } else if d < c {
      AlphabetAscends(d, c);
    }
  }

  /** Encodings of one length order as the values do, and differ when the values do. */
  lemma {:induction false} OrderKept(u: nat, v: nat, n: nat)
    requires u < Pow32(n) && v < Pow32(n)
    ensures Before(Encode(u, n), Encode(v, n)) <==> u < v
    ensures Encode(u, n) == Encode(v, n) <==> u == v
  {
    hide Symbol, Before, Base32;
    if n == 0 {
      NothingBefore();
    } else {
      var a, b := Encode(u / 32, n - 1), Encode(v / 32, n - 1);
      OrderKept(u / 32, v / 32, n - 1);
      SymbolsOrdered(u % 32, v % 32);
      BeforeLast(a, b, Symbol(u % 32), Symbol(v % 32));
      assert Encode(u, n)[..n - 1] == a && Encode(v, n)[..n - 1] == b;
      assert Encode(u, n)[n - 1] == Symbol(u % 32) && Encode(v, n)[n - 1] == Symbol(v % 32);
    }
  }

  lemma NothingBefore()
    ensures !Before("", "")
  {
  }

  /** The leading digit of an encoding is the value's leading digit. */
  lemma {:induction false} FirstDigit(q: nat, r: nat, n: nat)
    requires q < 32 && r < Pow32(n)
    ensures Encode(q * Pow32(n) + r, n + 1)[0] == Symbol(q)
  {
    hide Symbol, Base32, Encode, Pow32;
    if n > 0 {
      EncodeStep(q * Pow32(n) + r, n + 1);
      ShiftOut(q, r, n);
      FirstDigit(q, r / 32, n - 1);
    } else {
      EncodeStep(r, 0);
      EncodeStep(q, 1);
      EncodeStep(q / 32, 0);
    }
  }

  /** Dropping the last digit of a value drops it from the lower part. */
  lemma ShiftOut(q: nat, r: nat, n: nat)
    requires n > 0 && r < Pow32(n)
    ensures q * Pow32(n) + r >= 0 && (q * Pow32(n) + r) / 32 == q * Pow32(n - 1) + r / 32
    ensures r / 32 < Pow32(n - 1)
  {
    var t := q * Pow32(n - 1);
    assert q * Pow32(n) == 32 * t;
  }

  lemma Capacity()
    ensures Pow32(DIGITS) == 4 * TWO_TO_128
    ensures Pow32(DIGITS - 1) * 8 == TWO_TO_128
  {
    assert Pow32(5) == 0x200_0000;
    PowSum(5, 5);
    PowSum(10, 10);
    PowSum(20, 5);
  }

  lemma {:induction false} PowSum(a: nat, b: nat)
    ensures Pow32(a + b) == Pow32(a) * Pow32(b)
  {
    if a > 0 {
      PowSum(a - 1, b);
    }
  }

  /** One digit of an encoding, and the room left for the others. */
  lemma EncodeStep(v: nat, n: nat)
    ensures n == 0 ==> Encode(v, n) == "" && Pow32(n) == 1
    ensures n > 0 ==> Encode(v, n) == Encode(v / 32, n - 1) + [Symbol(v % 32)]
    ensures n > 0 && v < Pow32(n) ==> v / 32 < Pow32(n - 1)
  {
    hide Symbol;
  }

  /**
    The digit loop: twenty-six times the low five bits become a digit in front of the others and are
    shifted out. Nothing is left over, the digits decode to the value, and the first is at most 7.
   */
  method Suffix(digest: Value) returns (suffix: string, residue: nat)
    ensures suffix == Encode(digest, DIGITS) && Decode(suffix) == digest
    ensures residue == 0
    ensures suffix[0] in "01234567"
  {
    hide Symbol, Decode, Digit, Base32, Encode, Pow32;
    suffix := "";
    residue := digest;
    Capacity();
    for index := 0 to DIGITS
      invariant |suffix| == index
      invariant Encode(residue, DIGITS - index) + suffix == Encode(digest, DIGITS)
      invariant residue < Pow32(DIGITS - index)
    {
      ghost var rest := Encode(residue / 32, DIGITS - index - 1);
      EncodeStep(residue, DIGITS - index);
      assert rest + ([Symbol(residue % 32)] + suffix) == rest + [Symbol(residue % 32)] + suffix;
      suffix := [Symbol(residue % 32)] + suffix;
      residue := residue / 32;
    }
    EncodeStep(residue, 0);
    DecodeEncode(digest, DIGITS);
    var block := TWO_TO_128 / 8;
    FirstDigit(digest / block, digest % block, DIGITS - 1);
    LeadingSymbol(digest / block);
  }

  lemma LeadingSymbol(d: nat)
    requires d < 8
    ensures Symbol(d) in "01234567"
  {
    assert Symbol(d) == "01234567"[d];
  }

  // ----- labels -----

  const PREFIX: string := "unfiled.organizer.entity.v1:"

  function Label(job: string, decision: string, kind: string, offset: nat): string {
    PREFIX + (job + ":" + (decision + ":" + (kind + ":" + Digits(offset))))
  }

  predicate ColonFree(s: string) {
    ':' !in s
  }

  /** Where the colon is, when one side of it holds none. */
  lemma ColonBetween(a: string, x: string)
    ensures (a + ":" + x)[|a|] == ':'
    ensures ColonFree(a) ==> forall i | 0 <= i < |a| :: (a + ":" + x)[i] != ':'
    ensures ColonFree(x) ==> forall i | |a| < i < |a + ":" + x| :: (a + ":" + x)[i] != ':'
    ensures a == (a + ":" + x)[..|a|] && x == (a + ":" + x)[|a| + 1..]
  {
    var s := a + ":" + x;
    assert forall i | 0 <= i < |a| :: s[i] == a[i];
    assert forall i | |a| < i < |s| :: s[i] == x[i - |a| - 1];
  }

  lemma SplitAtFirstColon(a: string, x: string, b: string, y: string)
    requires ColonFree(a) && ColonFree(b) && a + ":" + x == b + ":" + y
    ensures a == b && x == y
  {
    ColonBetween(a, x);
    ColonBetween(b, y);
  }

  lemma SplitAtLastColon(a: string, x: string, b: string, y: string)
    requires ColonFree(x) && ColonFree(y) && a + ":" + x == b + ":" + y
    ensures a == b && x == y
  {
    ColonBetween(a, x);
    ColonBetween(b, y);
  }

  lemma CancelPrefix(p: string, x: string, y: string)
    requires p + x == p + y
    ensures x == y
  {
    assert x == (p + x)[|p|..] && y == (p + y)[|p|..];
  }

  lemma CountsAreColonFree(n: nat)
    ensures ColonFree(Digits(n))
  {
    DigitsArePlain(n);
  }

  /** Two labels are one exactly when their offsets are and their other parts, joined, are one string. */
  lemma LabelsAgree(i: string, d: string, k: string, m: nat, j: string, e: string, l: string, n: nat)
    ensures Label(i, d, k, m) == Label(j, e, l, n) <==> m == n && i + ":" + (d + ":" + k) == j + ":" + (e + ":" + l)
  {
    hide Digits, ColonFree, Label;
    LabelEnds(i, d, k, m);
    LabelEnds(j, e, l, n);
    if Label(i, d, k, m) == Label(j, e, l, n) {
      var u, v := i + ":" + (d + ":" + k), j + ":" + (e + ":" + l);
      CancelPrefix(PREFIX, u + ":" + Digits(m), v + ":" + Digits(n));
      CountsAreColonFree(m);
      CountsAreColonFree(n);
      SplitAtLastColon(u, Digits(m), v, Digits(n));
      DigitsInjective(m, n);
    }
  }

  lemma LabelEnds(i: string, d: string, k: string, m: nat)
    ensures Label(i, d, k, m) == PREFIX + ((i + ":" + (d + ":" + k)) + ":" + Digits(m))
  {
    hide Digits, PREFIX;
    var x := Digits(m);
    assert k + ":" + x == (k + ":") + x;
    assert i + ":" + (d + ":" + (k + ":" + x)) == (i + ":" + (d + ":" + k)) + ":" + x;
  }

  /** For kinds without a colon that is: same kind, same offset, and job and decision joined are one string. */
  lemma LabelsOfKinds(i: string, d: string, k: string, m: nat, j: string, e: string, l: string, n: nat)
    requires ColonFree(k) && ColonFree(l)
    ensures Label(i, d, k, m) == Label(j, e, l, n) <==> k == l && m == n && i + ":" + d == j + ":" + e
  {
    hide Label, ColonFree;
    LabelsAgree(i, d, k, m, j, e, l, n);
    assert i + ":" + (d + ":" + k) == (i + ":" + d) + ":" + k && j + ":" + (e + ":" + l) == (j + ":" + e) + ":" + l;
    if m == n && i + ":" + (d + ":" + k) == j + ":" + (e + ":" + l) {
      SplitAtLastColon(i + ":" + d, k, j + ":" + e, l);
    }
  }

  /** Under one job and decision a label names one kind and one offset, whatever the strings hold. */
  lemma LabelsOfOneFactory(job: string, decision: string, k: string, m: nat, l: string, n: nat)
    requires Label(job, decision, k, m) == Label(job, decision, l, n)
    ensures k == l && m == n
  {
    hide Label;
    LabelsAgree(job, decision, k, m, job, decision, l, n);
    assert job + ":" + (decision + ":" + k) == (job + ":" + (decision + ":")) + k;
    assert job + ":" + (decision + ":" + l) == (job + ":" + (decision + ":")) + l;
    CancelPrefix(job + ":" + (decision + ":"), k, l);
  }

  /** For colon-free jobs a label names all four of its parts, if its kinds or its decisions are colon-free too. */
  lemma LabelsApart(i: string, d: string, k: string, m: nat, j: string, e: string, l: string, n: nat)
    requires ColonFree(i) && ColonFree(j)
    requires (ColonFree(k) && ColonFree(l)) || (ColonFree(d) && ColonFree(e))
    ensures Label(i, d, k, m) == Label(j, e, l, n) <==> i == j && d == e && k == l && m == n
  {
    hide Label, ColonFree;
    LabelsAgree(i, d, k, m, j, e, l, n);
    if m == n && i + ":" + (d + ":" + k) == j + ":" + (e + ":" + l) {
      SplitAtFirstColon(i, d + ":" + k, j, e + ":" + l);
      if ColonFree(d) && ColonFree(e) {
        SplitAtFirstColon(d, k, e, l);
      } else {
        SplitAtLastColon(d, k, e, l);
      }
    }
  }

  /** Without that, a colon can trade places between job and decision. */
  lemma ColonsCollide(kind: string, offset: nat)
    ensures Label("a:b", "c", kind, offset) == Label("a", "b:c", kind, offset)
  {
    hide Label;
    LabelsAgree("a:b", "c", kind, offset, "a", "b:c", kind, offset);
    assert "a:b" + ":" + ("c" + ":" + kind) == "a" + ":" + ("b:c" + ":" + kind);
  }

  // ----- ids -----

  function Id(kind: string, digest: Value): string {
    kind + "_" + Encode(digest, DIGITS)
  }

  /** Ids agree exactly when kind and digest do. */
  lemma IdsApart(k: string, u: Value, l: string, v: Value)
    ensures Id(k, u) == Id(l, v) <==> k == l && u == v
  {
    hide Encode, Pow32;
    Capacity();
    OrderKept(u, v, DIGITS);
    if Id(k, u) == Id(l, v) {
      assert |k| == |l|;
      assert k == Id(k, u)[..|k|] && l == Id(l, v)[..|l|];
      assert Encode(u, DIGITS) == Id(k, u)[|k| + 1..] && Encode(v, DIGITS) == Id(l, v)[|l| + 1..];
    }
  }

  /** Ids of one kind sort as their digests do. */
  lemma IdsSortAsDigests(kind: string, u: Value, v: Value)
    ensures Before(Encode(u, DIGITS), Encode(v, DIGITS)) <==> u < v
  {
    hide Encode, Pow32, Before;
    Capacity();
    OrderKept(u, v, DIGITS);
  }

  /** The factory of one sealing run. `issued` lists the labels it hashed. */
  class IdFactory {
    const job: string
    const decision: string
    const hash: string -> Value
    var offsets: map<string, nat>
    ghost var issued: seq<(string, nat)>

    ghost function Offset(kind: string): nat
      reads this
    {
      if kind in offsets then offsets[kind] else 0
    }

    /** Each kind was issued under the offsets below its count, each offset once. */
    ghost predicate Valid()
      reads this
    {
      && (forall i | 0 <= i < |issued| :: issued[i].1 < Offset(issued[i].0))
      && (forall i, j | 0 <= i < j < |issued| :: issued[i] != issued[j])
    }

    constructor (job: string, decision: string, hash: string -> Value)
      ensures Valid() && issued == [] && forall kind :: Offset(kind) == 0
      ensures this.job == job && this.decision == decision && this.hash == hash
    {
      this.job, this.decision, this.hash := job, decision, hash;
      offsets := map[];
      issued := [];
    }

    /** A kind and offset not issued before have a label not hashed before. */
    lemma NeverHashed(issued: seq<(string, nat)>, kind: string, offset: nat)
      requires (kind, offset) !in issued
      ensures forall i | 0 <= i < |issued| ::
                Label(job, decision, kind, offset) != Label(job, decision, issued[i].0, issued[i].1)
    {
      hide Label;
      forall i | 0 <= i < |issued|
        ensures Label(job, decision, kind, offset) != Label(job, decision, issued[i].0, issued[i].1)
      {
        if Label(job, decision, kind, offset) == Label(job, decision, issued[i].0, issued[i].1) {
          LabelsOfOneFactory(job, decision, kind, offset, issued[i].0, issued[i].1);
        }
      }
    }

    /** Hashes a label that this factory never hashed before, and counts the kind up. */
    method Next(kind: string) returns (id: string)
      requires Valid()
      modifies this
      ensures Valid()
      ensures issued == old(issued) + [(kind, old(Offset(kind)))]
      ensures forall k :: Offset(k) == old(Offset(k)) + if k == kind then 1 else 0
      ensures id == Id(kind, hash(Label(job, decision, kind, old(Offset(kind)))))
      ensures forall i | 0 <= i < |old(issued)| ::
                Label(job, decision, kind, old(Offset(kind))) != Label(job, decision, issued[i].0, issued[i].1)
    {
      hide Encode, Digits, Label;
      var offset := if kind in offsets then offsets[kind] else 0;
      NeverHashed(issued, kind, offset);
      offsets := offsets[kind := offset + 1];
      issued := issued + [(kind, offset)];
      var suffix, residue := Suffix(hash(Label(job, decision, kind, offset)));
      id := kind + "_" + suffix;
    }
  }

  /** Where the hash tells two labels apart, a factory's ids for them differ. */
  lemma DistinctIds(job: string, decision: string, hash: string -> Value, k: string, m: nat, l: string, n: nat)
    requires (k, m) != (l, n)
    requires hash(Label(job, decision, k, m)) == hash(Label(job, decision, l, n)) ==>
               Label(job, decision, k, m) == Label(job, decision, l, n)
    ensures Id(k, hash(Label(job, decision, k, m))) != Id(l, hash(Label(job, decision, l, n)))
  {
    hide Label, Id;
    IdsApart(k, hash(Label(job, decision, k, m)), l, hash(Label(job, decision, l, n)));
    if Label(job, decision, k, m) == Label(job, decision, l, n) {
      LabelsOfOneFactory(job, decision, k, m, l, n);
    }
  }
}
