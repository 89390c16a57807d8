/** Device names from (major, minor): number to text conversion, and the name assembled from a built
    configuration record. */
module DeviceNames {
  import opened Options
  import opened Word32

  // ---- number to text

  const DIGITS: string := "0123456789"
  const LETTERS: string := "zabcdefghijklmnopqrstuvwxy"

  /** The text produced by the conversion loop from value v. With `nozero` the symbol at position 0 stands for
      `radix` itself. */
  function Tail(radix: nat, nozero: bool, syms: string, v: nat): string
    requires 2 <= radix <= |syms|
  {
    if v == 0 then "" else Tail(radix, nozero, syms, Rest(radix, nozero, v)) + [syms[v % radix]]
  }

  function Rest(radix: nat, nozero: bool, v: nat): (q: nat)
    requires radix >= 2 && v > 0
    ensures q < v
    ensures v == q * radix + (if nozero && v % radix == 0 then radix else v % radix)
  {
    QuotientIsSmaller(v, radix);
    if nozero && v % radix == 0 then v / radix - 1 else v / radix
  }

  lemma QuotientIsSmaller(v: nat, radix: nat)
    requires radix >= 2 && v > 0
    ensures 0 <= v / radix < v
    ensures v == (v / radix) * radix + v % radix
    ensures v % radix == 0 ==> v / radix >= 1
    ensures v % radix == 0 ==> v == (v / radix - 1) * radix + radix
  {
    Euclid(v, radix);
    SplitOff(v, v / radix, v % radix, radix);
  }

  lemma SplitOff(v: nat, q: int, r: nat, radix: nat)
    requires radix >= 2 && v > 0 && v == q * radix + r && r < radix && q >= 0
    ensures q < v
    ensures r == 0 ==> q >= 1 && v == (q - 1) * radix + radix
  {
    MulMono(2, radix, q);
    Distrib(q - 1, 1, radix);
  }

  lemma TailStep(radix: nat, nozero: bool, syms: string, v: nat, rest: string)
    requires 2 <= radix <= |syms| && v > 0
    ensures Tail(radix, nozero, syms, v) + rest
            == Tail(radix, nozero, syms, Rest(radix, nozero, v)) + ([syms[v % radix]] + rest)
    ensures |Tail(radix, nozero, syms, v)| > 0
  {
    Shift(Tail(radix, nozero, syms, Rest(radix, nozero, v)), syms[v % radix], rest);
  }

  lemma Shift(a: string, c: char, b: string)
    ensures (a + [c]) + b == a + ([c] + b)
  {
  }

  function Conv(radix: nat, nozero: bool, syms: string, val: u32): string
    requires 2 <= radix <= |syms|
  {
    var v := Add(val, if nozero then 1 else 0);
    if v == 0 then (if nozero then "" else "0") else Tail(radix, nozero, syms, v)
  }

  function Ito10(n: u32): string {
    Conv(10, false, DIGITS, n)
  }

  function Ito26(n: u32): string {
    Conv(26, true, LETTERS, n)
  }

  // ---- the letter numbering, over all naturals

  /** a, b, ..., z, aa, ab, ... */
  function Alpha(n: nat): string {
    Tail(26, true, LETTERS, n + 1)
  }

  predicate Lower(s: string) {
    forall i :: 0 <= i < |s| ==> 'a' <= s[i] <= 'z'
  }

  function LetterValue(c: char): int {
    c as int - 'a' as int + 1
  }

  /** 'a' is 1, 'z' is 26, each column worth 26 times the next. */
  function ValueOf(s: string): (v: nat)
    requires Lower(s)
    ensures v == 0 <==> s == ""
  {
    if s == "" then 0 else ValueOf(s[..|s| - 1]) * 26 + LetterValue(s[|s| - 1])
  }

  lemma LetterAt(j: nat)
    requires j < 26
    ensures 'a' <= LETTERS[j] <= 'z'
    ensures LetterValue(LETTERS[j]) == if j == 0 then 26 else j
  {
  }

  lemma LetterUnique(c: char, j: nat)
    requires 'a' <= c <= 'z' && j < 26 && LetterValue(c) % 26 == j
    ensures LETTERS[j] == c
  {
    LetterAt(j);
    assert 1 <= LetterValue(c) <= 26;
  }

  lemma {:induction false} TailValue(v: nat)
    ensures Lower(Tail(26, true, LETTERS, v))
    ensures ValueOf(Tail(26, true, LETTERS, v)) == v
  {
    if v > 0 {
      var q := Rest(26, true, v);
      TailValue(q);
      LetterAt(v % 26);
      var s := Tail(26, true, LETTERS, v);
      assert s[..|s| - 1] == Tail(26, true, LETTERS, q);
    }
  }

  lemma {:induction false} ValueTail(s: string)
    requires Lower(s)
    ensures Tail(26, true, LETTERS, ValueOf(s)) == s
  {
    if s != "" {
      var n, v := |s| - 1, ValueOf(s);
      var q := ValueOf(s[..n]);
      ValueTail(s[..n]);
      var d := LetterValue(s[n]);
      assert v == q * 26 + d && 1 <= d <= 26;
      assert Rest(26, true, v) == q && v % 26 == d % 26;
      LetterUnique(s[n], v % 26);
      assert s == s[..n] + [s[n]];
    }
  }

  function Decode26(s: string): nat
    requires Lower(s) && s != ""
  {
    ValueOf(s) - 1
  }

  lemma AlphaValue(n: nat)
    ensures Lower(Alpha(n)) && ValueOf(Alpha(n)) == n + 1
  {
    TailValue(n + 1);
  }

  lemma AlphaOfValue(s: string)
    requires Lower(s) && s != ""
    ensures Alpha(Decode26(s)) == s
  {
    ValueTail(s);
    assert Decode26(s) + 1 == ValueOf(s);
  }

  lemma AlphaDecodes(n: nat)
    ensures Lower(Alpha(n)) && Alpha(n) != "" && Decode26(Alpha(n)) == n
  {
    AlphaValue(n);
  }

  /** The letter numbering and its decoder undo each other: a bijection between the naturals and the non-empty
      strings over a..z. */
  lemma LetterBijection(n: nat, s: string)
    requires Lower(s) && s != ""
    ensures Lower(Alpha(n)) && Alpha(n) != "" && Decode26(Alpha(n)) == n
    ensures Alpha(Decode26(s)) == s
  {
    AlphaDecodes(n);
    AlphaOfValue(s);
  }

  /** Shorter first, then alphabetical. */
  ghost predicate Before(a: string, b: string) {
    |a| < |b| || (|a| == |b| && exists k :: FirstDiffer(a, b, k) && a[k] < b[k])
  }

  predicate FirstDiffer(a: string, b: string, k: int) {
    0 <= k < |a| && k < |b| && a[..k] == b[..k] && a[k] != b[k]
  }

  function Ones(k: nat): nat {
    if k == 0 then 0 else Ones(k - 1) * 26 + 1
  }

  lemma {:induction false} ValueBounds(s: string)
    requires Lower(s)
    ensures Ones(|s|) <= ValueOf(s) < Ones(|s| + 1)
  {
    if s != "" {
      ValueBounds(s[..|s| - 1]);
    }
  }

  lemma {:induction false} OnesGrow(j: nat, k: nat)
    requires j <= k
    ensures Ones(j) <= Ones(k)
  {
    if j < k {
      OnesGrow(j, k - 1);
    }
  }

  lemma {:induction false} SameLengthOrder(a: string, b: string, k: nat)
    requires Lower(a) && Lower(b) && |a| == |b| && FirstDiffer(a, b, k) && a[k] < b[k]
    ensures ValueOf(a) < ValueOf(b)
  {
    var n := |a| - 1;
    var a', b' := a[..n], b[..n];
    if k == n {
      assert a' == b';
    } else {
      assert a'[..k] == a[..k] && b'[..k] == b[..k];
      SameLengthOrder(a', b', k);
    }
  }

  lemma BeforeIsSmaller(a: string, b: string)
    requires Lower(a) && Lower(b) && Before(a, b)
    ensures ValueOf(a) < ValueOf(b)
  {
    if |a| < |b| {
      ValueBounds(a);
      ValueBounds(b);
      OnesGrow(|a| + 1, |b|);
    } else {
      var k :| FirstDiffer(a, b, k) && a[k] < b[k];
      SameLengthOrder(a, b, k);
    }
  }

  lemma {:induction false} FindFirst(a: string, b: string) returns (k: nat)
    requires |a| == |b| && a != b
    ensures FirstDiffer(a, b, k)
  {
    k := 0;
    while a[k] == b[k]
      invariant k < |a| && a[..k] == b[..k]
      decreases |a| - k
    {
      assert a[..k + 1] == a[..k] + [a[k]] && b[..k + 1] == b[..k] + [b[k]];
      assert a[..|a|] == a && b[..|a|] == b;
      k := k + 1;
    }
  }

  lemma OrderOfValues(a: string, b: string)
    requires Lower(a) && Lower(b) && ValueOf(a) < ValueOf(b)
    ensures Before(a, b)
  {
    if !Before(a, b) {
      if |a| == |b| {
        var k := FindFirst(a, b);
        assert FirstDiffer(a, b, k) && FirstDiffer(b, a, k);
        assert b[k] < a[k];
      }
      assert Before(b, a);
      BeforeIsSmaller(b, a);
    }
  }

  /** Numeric order is shorter-first, then alphabetical order. */
  lemma LetterOrder(m: nat, n: nat)
    ensures m < n <==> Before(Alpha(m), Alpha(n))
  {
    AlphaValue(m);
    AlphaValue(n);
    if Before(Alpha(m), Alpha(n)) {
      BeforeIsSmaller(Alpha(m), Alpha(n));
    } else if m < n {
      OrderOfValues(Alpha(m), Alpha(n));
    }
  }

  lemma Ito26IsTail(n: u32)
    ensures Ito26(n) == Tail(26, true, LETTERS, Add(n, 1))
  {
  }

  /** The program's letters are that numbering, except for the one value whose increment wraps to 0. */
  lemma Ito26IsAlpha(n: u32)
    ensures Ito26(n) == "" <==> n == 0xffff_ffff
    ensures n < 0xffff_ffff ==> Ito26(n) == Alpha(n)
  {
    WordNext(n);
    Ito26IsTail(n);
    AlphaValue(n);
  }

  lemma Ito26Injective(m: u32, n: u32)
    requires Ito26(m) == Ito26(n)
    ensures m == n
  {
    Ito26IsAlpha(m);
    Ito26IsAlpha(n);
    AlphaValue(m);
    AlphaValue(n);
  }

  // ---- decimal

  predicate AllDigits(s: string) {
    forall i :: 0 <= i < |s| ==> '0' <= s[i] <= '9'
  }

  /** Non-empty, and no leading zero except in "0" itself. */
  predicate Decimal(s: string) {
    s != "" && AllDigits(s) && (s[0] == '0' ==> |s| == 1)
  }

  function Decode10(s: string): nat
    requires AllDigits(s)
  {
    if s == "" then 0 else Decode10(s[..|s| - 1]) * 10 + (s[|s| - 1] as int - '0' as int)
  }

  lemma DigitAt(j: nat)
    requires j < 10
    ensures DIGITS[j] as int == '0' as int + j
  {
  }

  lemma {:induction false} TailDecimal(v: nat)
    ensures AllDigits(Tail(10, false, DIGITS, v)) && Decode10(Tail(10, false, DIGITS, v)) == v
    ensures v > 0 ==> |Tail(10, false, DIGITS, v)| > 0 && Tail(10, false, DIGITS, v)[0] != '0'
  {
    if v > 0 {
      var q := Rest(10, false, v);
      TailDecimal(q);
      DigitAt(v % 10);
      var s := Tail(10, false, DIGITS, v);
      assert s[..|s| - 1] == Tail(10, false, DIGITS, q);
    }
  }

  lemma Decode10Last(s: string)
    requires AllDigits(s) && s != "" && Decode10(s) > 0
    ensures var (q, d) := (Decode10(s[..|s| - 1]), s[|s| - 1] as int - '0' as int);
            && 0 <= d <= 9 && Decode10(s) == 10 * q + d
            && Rest(10, false, Decode10(s)) == q && Decode10(s) % 10 == d && DIGITS[d] == s[|s| - 1]
  {
    var d := s[|s| - 1] as int - '0' as int;
    DigitAt(d);
  }

  lemma {:induction false} DecimalTail(s: string)
    requires AllDigits(s) && (s != "" ==> s[0] != '0')
    ensures Tail(10, false, DIGITS, Decode10(s)) == s
    ensures s != "" ==> Decode10(s) > 0
  {
    if s != "" {
      var n := |s| - 1;
      DecimalTail(s[..n]);
      assert Decode10(s) > 0;
      Decode10Last(s);
      assert s == s[..n] + [s[n]];
    }
  }

  lemma Ito10IsTail(n: u32)
    ensures Ito10(n) == if n == 0 then "0" else Tail(10, false, DIGITS, n)
  {
    assert Add(n, 0) == n;
  }

  /** What the program prints in decimal is the number's decimal text. */
  lemma DecimalOfWord(n: u32)
    ensures Decimal(Ito10(n)) && Decode10(Ito10(n)) == n
  {
    Ito10IsTail(n);
    TailDecimal(n);
  }

  lemma WordOfDecimal(s: string)
    requires Decimal(s) && Decode10(s) < 0x1_0000_0000
    ensures Ito10(Decode10(s)) == s
  {
    Ito10IsTail(Decode10(s));
    if s[0] == '0' {
      assert s == "0" && s[..0] == "";
    } else {
      DecimalTail(s);
    }
  }

  // ---- length

  /** In radix 4 or more every 32-bit value fits 16 characters. */
  lemma FitsBuffer(radix: nat, nozero: bool, syms: string, val: u32)
    requires 4 <= radix <= |syms|
    ensures |Conv(radix, nozero, syms, val)| <= 16
  {
    FourToSixteen();
    TailLength(radix, nozero, syms, Add(val, if nozero then 1 else 0), 16);
  }

  function Four(k: nat): nat {
    if k == 0 then 1 else 4 * Four(k - 1)
  }

  lemma FourToSixteen()
    ensures Four(16) == 0x1_0000_0000
  {
    assert Four(4) == 256;
    assert Four(8) == 0x1_0000;
    assert Four(12) == 0x100_0000;
  }

  lemma {:induction false} TailLength(radix: nat, nozero: bool, syms: string, v: nat, k: nat)
    requires 4 <= radix <= |syms| && v < Four(k)
    ensures |Tail(radix, nozero, syms, v)| <= k
  {
    if v > 0 {
      var q := Rest(radix, nozero, v);
      MulMono(4, radix, q);
      TailLength(radix, nozero, syms, q, k - 1);
    }
  }

  // ---- names

  /** Letters, or decimal after a fixed text. */
  datatype DiskFormat = AsLetters | AsDecimal(prefix: string)

  datatype Exception = Exception(minor: u32, name: string)

  /** A built record; `controller` is the text before an explicit controller number. */
  datatype Record = Record(name: string, controller: Option<string>, disk: DiskFormat, partition: string,
                           dcount: u32, pcount: u32, ext: Option<Exception>)

  datatype Entry = Entry(ctrlno: u32, rec: Record)

  const MAX_BLKDEV: u32 := 255
  const MAX_MINOR: u32 := 255
  const NO_DEV: string := "nodev"

  type Table = t: seq<Option<Entry>> | |t| == MAX_BLKDEV + 1 witness seq(256, i => None)

  /** printf's %d applied to an unsigned word. */
  function PrintInt(x: u32): string {
    if x < 0x8000_0000 then Ito10(x) else "-" + Ito10(0x1_0000_0000 - x)
  }

  predicate InRange(rec: Record, minor: u32) {
    minor < MAX_MINOR && minor < Wrap(rec.dcount * rec.pcount)
  }

  function MulNat(a: nat, b: nat): (r: nat)
    ensures r == a * b
  {
    a * b
  }

  lemma InRangeDivides(rec: Record, minor: u32)
    requires InRange(rec, minor)
    ensures rec.pcount > 0 && Disk(rec, minor) < rec.dcount
  {
    var d, p := rec.dcount, rec.pcount;
    if p > 0 {
      var product: nat := MulNat(d, p);
      Euclid(product, 0x1_0000_0000);
      Euclid(minor, p);
      if minor / p >= d {
        MulMono(d, minor / p, p);
      }
    }
  }

  function Disk(rec: Record, minor: u32): nat
    requires rec.pcount > 0
  {
    minor / rec.pcount
  }

  function Partition(rec: Record, minor: u32): nat
    requires rec.pcount > 0
  {
    minor % rec.pcount
  }

  /** The disk number within all controllers of an implicit record, or within one of an explicit record. */
  function Offset(e: Entry, minor: u32): u32
    requires e.rec.pcount > 0
  {
    Wrap(Disk(e.rec, minor) + if e.rec.controller.Some? then 0 else e.ctrlno * e.rec.dcount)
  }

  predicate IsWhole(rec: Record, minor: u32)
    requires rec.pcount > 0
  {
    Partition(rec, minor) == 0
  }

  function BaseText(e: Entry): string {
    e.rec.name + if e.rec.controller.Some? then e.rec.controller.value + PrintInt(e.ctrlno) else ""
  }

  function DiskText(rec: Record, offset: u32): string {
    if rec.disk.AsLetters? then Ito26(offset) else rec.disk.prefix + Ito10(offset)
  }

  function PartitionText(rec: Record, minor: u32): string
    requires rec.pcount > 0
  {
    if IsWhole(rec, minor) then "" else rec.partition + PrintInt(Partition(rec, minor))
  }

  function Assembled(e: Entry, minor: u32): string
    requires e.rec.pcount > 0
  {
    BaseText(e) + DiskText(e.rec, Offset(e, minor)) + PartitionText(e.rec, minor)
  }

  /** The name of a device, or None where the program returns NULL. */
  function NameOf(table: Table, major: u32, minor: u32): Option<string> {
    if MAX_BLKDEV <= major || MAX_MINOR <= minor then None
    else
      var entry := table[major];
      if entry.None? || !InRange(entry.value.rec, minor) then Some(NO_DEV)
      else if entry.value.rec.ext.Some? && entry.value.rec.ext.value.minor == minor then
        Some(entry.value.rec.ext.value.name)
      else
        InRangeDivides(entry.value.rec, minor);
        Some(Assembled(entry.value, minor))
  }

  class DeviceNamer {
    const table: Table
    const out: array<char>
    var name: string

    ghost predicate Valid()
      reads this
    {
      out.Length == 17
    }

    constructor (table: Table)
      ensures Valid() && fresh(out) && this.table == table
    {
      this.table := table;
      out := new char[17];
      name := "";
    }

    /** Fills the static buffer from its end; the text starts at the returned position. */
    method IocConv(radix: nat, nozero: bool, syms: string, val: u32) returns (p: nat)
      requires Valid() && 2 <= radix <= |syms| && |Conv(radix, nozero, syms, val)| <= 16
      modifies out
      ensures p <= 16 && out[16] == 0 as char
      ensures out[p..16] == Conv(radix, nozero, syms, val)
    {
      p := 16;
      out[p] := 0 as char;
      var v: nat := Add(val, if nozero then 1 else 0);
      if v == 0 {
        if !nozero {
          p := p - 1;
          out[p] := '0';
        }
        return;
      }
      ghost var all := Conv(radix, nozero, syms, val);
      assert all == Tail(radix, nozero, syms, v);
      while v > 0
        invariant 0 <= p <= 16 && out[16] == 0 as char
        invariant all == Tail(radix, nozero, syms, v) + out[p..16]
      {
        ghost var done := out[p..16];
        TailStep(radix, nozero, syms, v, done);
        p := Put(p, syms[v % radix], done);
        v := NextValue(radix, nozero, v);
      }
    }

    /** Stores one more symbol in front. */
    method Put(p: nat, c: char, ghost done: string) returns (p': nat)
      requires Valid() && 0 < p <= 16 && done == out[p..16]
      modifies out
      ensures p' == p - 1 && out[16] == old(out[16]) && out[p'..16] == [c] + done
    {
      p' := p - 1;
      out[p'] := c;
    }

    /** The two assignments to the value at the end of an iteration. */
    method NextValue(radix: nat, nozero: bool, v: nat) returns (v': nat)
      requires radix >= 2 && v > 0
      ensures v' == Rest(radix, nozero, v)
    {
      QuotientIsSmaller(v, radix);
      v' := v / radix;
      if nozero && v % radix == 0 {
        v' := v' - 1;
      }
    }

    method IocName(major: u32, minor: u32) returns (found: bool)
      requires Valid()
      modifies this, out
      ensures Valid()
      ensures if found then NameOf(table, major, minor) == Some(name)
              else NameOf(table, major, minor) == None && name == old(name)
    {
      if MAX_BLKDEV <= major || MAX_MINOR <= minor {
        return false;
      }
      found := true;
      var p := table[major];
      if p.None? || minor >= Wrap(p.value.rec.dcount * p.value.rec.pcount) {
        name := NO_DEV;
        return;
      }
      var rec := p.value.rec;
      if rec.ext.Some? && rec.ext.value.minor == minor {
        name := rec.ext.value.name;
        return;
      }
      InRangeDivides(rec, minor);
      var offset := Offset(p.value, minor);
      name := BaseText(p.value);
      var start;
      if rec.disk.AsLetters? {
        FitsBuffer(26, true, LETTERS, offset);
        start := IocConv(26, true, LETTERS, offset);
        name := name + out[start..16];
      } else {
        FitsBuffer(10, false, DIGITS, offset);
        start := IocConv(10, false, DIGITS, offset);
        name := name + (rec.disk.prefix + out[start..16]);
      }
      if !IsWhole(rec, minor) {
        name := name + (rec.partition + PrintInt(Partition(rec, minor)));
      } else {
        assert name + "" == name;
      }
    }
  }
}
