/** When distinct devices have distinct names. */
module DistinctNames {
  import opened Options
  import opened Word32
  import opened DeviceNames

  predicate IsDigit(c: char) {
    '0' <= c <= '9'
  }

  predicate NoDigit(c: char) {
    !IsDigit(c)
  }

  // ---- a text without a mark, and a text whose first mark is at a known place

  predicate Unmarked(x: string, mark: char -> bool) {
    forall i :: 0 <= i < |x| ==> !mark(x[i])
  }

  predicate FirstMark(p: string, j: nat, mark: char -> bool) {
    j < |p| && mark(p[j]) && forall i :: 0 <= i < j ==> !mark(p[i])
  }

  lemma ConcatAt(a: string, b: string, k: nat)
    requires k < |a| + |b|
    ensures (a + b)[k] == if k < |a| then a[k] else b[k - |a|]
  {
  }

  lemma NotShorter(x: string, x': string, p: string, p': string, j: nat, mark: char -> bool)
    requires Unmarked(x', mark) && x + p == x' + p'
    requires FirstMark(p, j, mark) && FirstMark(p', j, mark)
    ensures |x| >= |x'|
  {
    var k := |x| + j;
    ConcatAt(x', p', k);
    assert (x + p)[k] == p[j];
  }

  lemma SameSplit(x: string, x': string, p: string, p': string, j: nat, mark: char -> bool)
    requires Unmarked(x, mark) && Unmarked(x', mark) && x + p == x' + p'
    requires FirstMark(p, j, mark) && FirstMark(p', j, mark)
    ensures x == x' && p == p'
  {
    NotShorter(x, x', p, p', j, mark);
    NotShorter(x', x, p', p, j, mark);
    assert x == (x + p)[..|x|] && x' == (x' + p')[..|x|];
    assert p == (x + p)[|x|..] && p' == (x' + p')[|x|..];
  }

  lemma UnmarkedDiffers(x: string, x': string, p: string, j: nat, mark: char -> bool)
    requires Unmarked(x, mark) && FirstMark(p, j, mark)
    ensures x != x' + p
  {
    assert (x' + p)[|x'| + j] == p[j];
  }

  /** A partition part with number r, empty for the whole disk. */
  function Part(prefix: string, r: u32): string {
    if r == 0 then "" else prefix + Ito10(r)
  }

  /** The disk text has no mark and every partition text its first one at the same place. */
  ghost predicate Marks(prefix: string, mark: char -> bool) {
    || (mark == IsDigit)
    || (mark == NoDigit && !AllDigits(prefix))
  }

  lemma {:induction false} FirstMarkOf(prefix: string, d: string, d': string, mark: char -> bool) returns (j: nat)
    requires Marks(prefix, mark) && d != "" && d' != "" && AllDigits(d) && AllDigits(d')
    ensures FirstMark(prefix + d, j, mark) && FirstMark(prefix + d', j, mark)
  {
    j := 0;
    while j < |prefix| && !mark(prefix[j])
      invariant j <= |prefix|
      invariant forall i :: 0 <= i < j ==> !mark(prefix[i])
    {
      j := j + 1;
    }
    assert j == |prefix| ==> mark == IsDigit;
  }

  lemma TextAndPart(x: string, x': string, prefix: string, r: u32, r': u32, mark: char -> bool)
    requires Unmarked(x, mark) && Unmarked(x', mark) && Marks(prefix, mark)
    requires x + Part(prefix, r) == x' + Part(prefix, r')
    ensures x == x' && r == r'
  {
    DecimalOfWord(r);
    DecimalOfWord(r');
    var d, d' := Ito10(r), Ito10(r');
    var j := FirstMarkOf(prefix, d, d', mark);
    if r == 0 || r' == 0 {
      UnmarkedDiffers(x, x', prefix + d', j, mark);
      UnmarkedDiffers(x', x, prefix + d, j, mark);
      assert x + "" == x && x' + "" == x';
    } else {
      SameSplit(x, x', prefix + d, prefix + d', j, mark);
      assert d == (prefix + d)[|prefix|..] && d' == (prefix + d')[|prefix|..];
    }
  }

  // ---- records whose disk and partition numbers can be told apart

  /** Letters, or a partition format with a character that is no digit. */
  predicate Separable(rec: Record) {
    rec.disk.AsLetters? || !AllDigits(rec.partition)
  }

  lemma Ito26Lower(n: u32)
    ensures Lower(Ito26(n))
  {
    Ito26IsAlpha(n);
    AlphaValue(n);
  }

  lemma Ito10Injective(m: u32, n: u32)
    requires Ito10(m) == Ito10(n)
    ensures m == n
  {
    DecimalOfWord(m);
    DecimalOfWord(n);
  }

  lemma NumberAndPart(rec: Record, o: u32, o': u32, r: u32, r': u32)
    requires Separable(rec)
    requires DiskText(rec, o) + Part(rec.partition, r) == DiskText(rec, o') + Part(rec.partition, r')
    ensures o == o' && r == r'
  {
    if rec.disk.AsLetters? {
      Ito26Lower(o);
      Ito26Lower(o');
      TextAndPart(Ito26(o), Ito26(o'), rec.partition, r, r', IsDigit);
      Ito26Injective(o, o');
    } else {
      DecimalOfWord(o);
      DecimalOfWord(o');
      AfterPrefix(rec.disk.prefix, Ito10(o), Part(rec.partition, r), Ito10(o'), Part(rec.partition, r'));
      TextAndPart(Ito10(o), Ito10(o'), rec.partition, r, r', NoDigit);
      Ito10Injective(o, o');
    }
  }

  lemma SameBase(base: string, a: string, b: string)
    ensures base + a == base + b <==> a == b
  {
    if base + a == base + b {
      assert a == (base + a)[|base|..] && b == (base + b)[|base|..];
    }
  }

  lemma AfterPrefix(base: string, a: string, p: string, a': string, p': string)
    ensures (base + a) + p == (base + a') + p' <==> a + p == a' + p'
  {
    assert (base + a) + p == base + (a + p) && (base + a') + p' == base + (a' + p');
    SameBase(base, a + p, a' + p');
  }

  lemma PartitionIsPart(rec: Record, m: u32)
    requires rec.pcount > 0 && m < MAX_MINOR
    ensures PartitionText(rec, m) == Part(rec.partition, Partition(rec, m))
  {
    Euclid(m, rec.pcount);
    MulMono(0, m / rec.pcount, rec.pcount);
  }

  lemma ImplicitName(e: Entry, m: u32)
    requires e.rec.controller.None? && e.rec.pcount > 0 && m < MAX_MINOR
    ensures Assembled(e, m) == e.rec.name + (DiskText(e.rec, Offset(e, m)) + Part(e.rec.partition, Partition(e.rec, m)))
  {
    PartitionIsPart(e.rec, m);
    assert e.rec.name + "" == e.rec.name;
  }

  lemma TextsEqualExactly(rec: Record, o: u32, o': u32, r: u32, r': u32)
    requires Separable(rec)
    ensures rec.name + (DiskText(rec, o) + Part(rec.partition, r))
            == rec.name + (DiskText(rec, o') + Part(rec.partition, r'))
            <==> o == o' && r == r'
  {
    var a, b := DiskText(rec, o) + Part(rec.partition, r), DiskText(rec, o') + Part(rec.partition, r');
    SameBase(rec.name, a, b);
    if a == b {
      NumberAndPart(rec, o, o', r, r');
    }
  }

  /** For a separable record with an implicit controller, two names are equal exactly when the wrapped disk numbers
      and the partition numbers are. */
  lemma NamesEqualExactly(e: Entry, e': Entry, m: u32, m': u32)
    requires e.rec == e'.rec && Separable(e.rec) && e.rec.controller.None?
    requires InRange(e.rec, m) && InRange(e.rec, m')
    ensures e.rec.pcount > 0
    ensures Assembled(e, m) == Assembled(e', m')
            <==> Offset(e, m) == Offset(e', m') && Partition(e.rec, m) == Partition(e.rec, m')
  {
    InRangeDivides(e.rec, m);
    ImplicitName(e, m);
    ImplicitName(e', m');
    PartitionFits(e.rec, m);
    PartitionFits(e.rec, m');
    TextsEqualExactly(e.rec, Offset(e, m), Offset(e', m'), Partition(e.rec, m), Partition(e.rec, m'));
  }

  lemma PartitionFits(rec: Record, m: u32)
    requires rec.pcount > 0
    ensures Partition(rec, m) <= m && Partition(rec, m) < rec.pcount
  {
    Euclid(m, rec.pcount);
    MulMono(0, m / rec.pcount, rec.pcount);
  }

  /** No disk number of the controller wraps. */
  predicate Numbered(e: Entry) {
    (e.ctrlno + 1) * e.rec.dcount <= 0x1_0000_0000
  }

  lemma OffsetDetermines(e: Entry, e': Entry, m: u32, m': u32, rec: Record)
    requires e.rec == rec && e'.rec == rec && rec.controller.None? && Numbered(e) && Numbered(e')
    requires rec.pcount > 0 && Disk(rec, m) < rec.dcount && Disk(rec, m') < rec.dcount
    ensures Offset(e, m) == Offset(e', m') <==> e.ctrlno == e'.ctrlno && Disk(rec, m) == Disk(rec, m')
  {
    PlainOffset(e, m, Disk(rec, m), rec.dcount);
    PlainOffset(e', m', Disk(rec, m'), rec.dcount);
  }

  lemma Recompose(rec: Record, m: u32, m': u32)
    requires rec.pcount > 0
    ensures Disk(rec, m) == Disk(rec, m') && Partition(rec, m) == Partition(rec, m') <==> m == m'
  {
    Euclid(m, rec.pcount);
    Euclid(m', rec.pcount);
  }

  /** Without wrapping, the disk number determines the controller and the disk. */
  lemma PlainOffset(e: Entry, m: u32, q: nat, d: nat)
    requires e.rec.controller.None? && Numbered(e) && e.rec.pcount > 0 && d == e.rec.dcount
    requires q == Disk(e.rec, m) && q < d
    ensures Offset(e, m) / d == e.ctrlno && Offset(e, m) % d == q
  {
    Distrib(e.ctrlno, 1, d);
    var base: nat := MulNat(e.ctrlno, d);
    assert Offset(e, m) == Wrap(q + base) == q + base;
    DivMod(q + base, d, e.ctrlno, q);
  }

  lemma AssembledDistinct(e: Entry, e': Entry, m: u32, m': u32, rec: Record)
    requires e.rec == rec && e'.rec == rec && Numbered(e) && Numbered(e')
    requires Separable(rec) && rec.controller.None? && InRange(rec, m) && InRange(rec, m')
    ensures rec.pcount > 0
    ensures Assembled(e, m) == Assembled(e', m') <==> e.ctrlno == e'.ctrlno && m == m'
  {
    NamesEqualExactly(e, e', m, m');
    InRangeDivides(rec, m);
    InRangeDivides(rec, m');
    OffsetDetermines(e, e', m, m', rec);
    Recompose(rec, m, m');
  }

  predicate Implicit(table: Table, major: u32, rec: Record) {
    && major < MAX_BLKDEV && table[major].Some? && table[major].value.rec == rec
    && rec.controller.None? && rec.ext.None?
  }

  /** Majors that share a separable record under different controller numbers never give two devices one name. */
  lemma NamesDistinct(table: Table, major: u32, major': u32, m: u32, m': u32, rec: Record)
    requires Implicit(table, major, rec) && Implicit(table, major', rec) && Separable(rec)
    requires Numbered(table[major].value) && Numbered(table[major'].value)
    requires major != major' ==> table[major].value.ctrlno != table[major'].value.ctrlno
    requires InRange(rec, m) && InRange(rec, m')
    ensures NameOf(table, major, m).Some?
    ensures NameOf(table, major, m) == NameOf(table, major', m') <==> major == major' && m == m'
  {
    AssembledDistinct(table[major].value, table[major'].value, m, m', rec);
  }

  // ---- decimal disk numbers directly followed by partition numbers

  /** Disk and partition numbers are both decimal, with nothing between them. */
  predicate Adjacent(rec: Record) {
    rec.disk.AsDecimal? && rec.partition == ""
  }

  /** Partitions exist, and a twelfth disk does. */
  predicate Ambiguous(rec: Record) {
    && rec.pcount >= 2 && 11 * rec.pcount < MAX_MINOR
    && 11 * rec.pcount < Wrap(rec.dcount * rec.pcount)
  }

  lemma TwelveDisks(rec: Record)
    requires rec.dcount * rec.pcount < 0x1_0000_0000
    ensures Ambiguous(rec) <==> rec.pcount >= 2 && rec.dcount >= 12 && 11 * rec.pcount < MAX_MINOR
  {
    var d, p := rec.dcount, rec.pcount;
    var product: nat := MulNat(d, p);
    assert Wrap(product) == product;
    if d >= 12 && p > 0 {
      MulMono(12, d, p);
    } else if d < 12 {
      MulMono(d, 11, p);
    }
  }

  lemma OneDigit(n: u32)
    requires n < 10
    ensures |Ito10(n)| == 1
  {
    Ito10IsTail(n);
    if n > 0 {
      assert Rest(10, false, n) == 0 by {
        assert n / 10 == 0;
      }
    }
  }

  lemma TwoDigits(n: u32, t: u32, u: u32)
    requires n == 10 * t + u && 0 < t < 10 && u < 10
    ensures Ito10(n) == Ito10(t) + [DIGITS[u]]
  {
    Ito10IsTail(n);
    Ito10IsTail(t);
    assert n / 10 == t && n % 10 == u;
    assert Rest(10, false, n) == t;
  }

  /** A number whose text continues another number's text with a digit other than 0 is at least 11. */
  lemma ContinuesAtEleven(o: u32, o': u32, rest: string)
    requires Ito10(o') == Ito10(o) + rest && rest != "" && rest[0] != '0'
    ensures o' >= 11
  {
    DecimalOfWord(o);
    DecimalOfWord(o');
    assert Ito10(o')[|Ito10(o)|] == rest[0];
    if o' < 10 {
      OneDigit(o');
    } else if o' == 10 {
      TwoDigits(10, 1, 0);
      OneDigit(1);
    }
  }

  lemma PartitionFirst(r: u32)
    requires r > 0
    ensures Ito10(r) != "" && Ito10(r)[0] != '0'
  {
    Ito10IsTail(r);
    TailDecimal(r);
  }

  lemma Continues(x: string, y: string, x': string, y': string)
    requires x + y == x' + y' && |x| < |x'|
    ensures x' == x + x'[|x|..] && y != "" && x'[|x|] == y[0]
  {
    var all := x + y;
    assert |all| == |x| + |y| == |x'| + |y'|;
    assert all[|x|] == y[0] && all[|x|] == (x' + y')[|x|] == x'[|x|];
    assert x == all[..|x|] && x' == (x' + y')[..|x'|];
  }

  lemma LongerDisk(o: u32, o': u32, r: u32, r': u32)
    requires Ito10(o) + Part("", r) == Ito10(o') + Part("", r') && |Ito10(o)| < |Ito10(o')|
    ensures r > 0 && o' >= 11
  {
    var x, x' := Ito10(o), Ito10(o');
    Continues(x, Part("", r), x', Part("", r'));
    assert Part("", r) == Ito10(r);
    PartitionFirst(r);
    ContinuesAtEleven(o, o', x'[|x|..]);
  }

  lemma EqualLengths(o: u32, o': u32, r: u32, r': u32)
    requires Ito10(o) + Part("", r) == Ito10(o') + Part("", r') && |Ito10(o)| == |Ito10(o')|
    ensures o == o' && r == r'
  {
    var x, x' := Ito10(o), Ito10(o');
    assert x == (x + Part("", r))[..|x|] && x' == (x' + Part("", r'))[..|x|];
    assert Part("", r) == (x + Part("", r))[|x|..] && Part("", r') == (x' + Part("", r'))[|x|..];
    Ito10Injective(o, o');
    DecimalOfWord(r);
    DecimalOfWord(r');
    assert "" + Ito10(r) == Ito10(r) && "" + Ito10(r') == Ito10(r');
    if r != 0 && r' != 0 {
      Ito10Injective(r, r');
    }
  }

  lemma SameText(o: u32, o': u32, r: u32, r': u32)
    requires Ito10(o) + Part("", r) == Ito10(o') + Part("", r') && !(o == o' && r == r')
    ensures (r > 0 && o' >= 11) || (r' > 0 && o >= 11)
  {
    if |Ito10(o)| < |Ito10(o')| {
      LongerDisk(o, o', r, r');
    } else if |Ito10(o')| < |Ito10(o)| {
      LongerDisk(o', o, r', r);
    } else {
      EqualLengths(o, o', r, r');
    }
  }

  /** Disk and partition number of a device of controller 0. */
  predicate Numbers(e: Entry, m: u32, d: u32, r: u32) {
    && Adjacent(e.rec) && e.rec.controller.None? && e.rec.pcount > 0 && m < MAX_MINOR
    && d == Disk(e.rec, m) && r == Partition(e.rec, m) && Offset(e, m) == d
  }

  lemma NumbersOf(e: Entry, m: u32) returns (d: u32, r: u32)
    requires Adjacent(e.rec) && e.rec.controller.None? && e.ctrlno == 0 && e.rec.pcount > 0 && m < MAX_MINOR
    ensures Numbers(e, m, d, r)
  {
    DiskFits(e.rec, m);
    PartitionFits(e.rec, m);
    d, r := Disk(e.rec, m), Partition(e.rec, m);
    ZeroTimes(e.rec.dcount);
  }

  lemma ZeroTimes(k: nat)
    ensures 0 * k == 0
  {
  }

  lemma DiskFits(rec: Record, m: u32)
    requires rec.pcount > 0
    ensures Disk(rec, m) <= m && Disk(rec, m) * rec.pcount <= m
  {
    Euclid(m, rec.pcount);
    MulMono(1, rec.pcount, Disk(rec, m));
  }

  /** The two numbers one after the other. */
  function Digits(d: u32, r: u32): string {
    Ito10(d) + Part("", r)
  }

  lemma ZeroController(e: Entry, m: u32, d: u32, r: u32)
    requires Numbers(e, m, d, r)
    ensures Assembled(e, m) == e.rec.name + (e.rec.disk.prefix + Digits(d, r))
  {
    ImplicitName(e, m);
    Regroup(e.rec.disk.prefix, Ito10(d), Part("", r));
  }

  lemma Regroup(a: string, b: string, c: string)
    ensures (a + b) + c == a + (b + c)
  {
  }

  /** Two names of such a record are equal exactly when the two numbers written one after the other are. */
  lemma AdjacentNames(e: Entry, m: u32, d: u32, r: u32, m': u32, d': u32, r': u32)
    requires Numbers(e, m, d, r) && Numbers(e, m', d', r')
    ensures Assembled(e, m) == Assembled(e, m') <==> Digits(d, r) == Digits(d', r')
  {
    ZeroController(e, m, d, r);
    ZeroController(e, m', d', r');
    SameBase(e.rec.disk.prefix, Digits(d, r), Digits(d', r'));
    SameBase(e.rec.name, e.rec.disk.prefix + Digits(d, r), e.rec.disk.prefix + Digits(d', r'));
  }

  /** A minor on disk 11 or above shows that the twelfth disk is in range. */
  lemma EleventhInRange(rec: Record, m: u32, d: u32, r: u32)
    requires InRange(rec, m) && rec.pcount > 0 && d == Disk(rec, m) >= 11 && 0 < r < rec.pcount
    ensures Ambiguous(rec)
  {
    DiskFits(rec, m);
    MulMono(11, d, rec.pcount);
  }

  lemma SharedNameIsAmbiguous(e: Entry, m: u32, m': u32)
    requires Adjacent(e.rec) && e.rec.controller.None? && e.ctrlno == 0 && InRange(e.rec, m) && InRange(e.rec, m')
    requires e.rec.pcount > 0 && m != m' && Assembled(e, m) == Assembled(e, m')
    ensures Ambiguous(e.rec)
  {
    var d, r := NumbersOf(e, m);
    var d', r' := NumbersOf(e, m');
    AdjacentNames(e, m, d, r, m', d', r');
    Recompose(e.rec, m, m');
    SameText(d, d', r, r');
    PartitionFits(e.rec, m);
    PartitionFits(e.rec, m');
    if r > 0 && d' >= 11 {
      EleventhInRange(e.rec, m', d', r);
    } else {
      EleventhInRange(e.rec, m, d, r');
    }
  }

  /** Disk 11 and partition 1 of disk 1. */
  lemma Elevens(e: Entry)
    requires Adjacent(e.rec) && e.rec.controller.None? && e.ctrlno == 0 && Ambiguous(e.rec)
    ensures InRange(e.rec, 11 * e.rec.pcount) && InRange(e.rec, e.rec.pcount + 1)
    ensures Assembled(e, 11 * e.rec.pcount) == Assembled(e, e.rec.pcount + 1)
  {
    var p := e.rec.pcount;
    DivMod(11 * p, p, 11, 0);
    DivMod(p + 1, p, 1, 1);
    OneAndOne();
    var d, r := NumbersOf(e, 11 * p);
    var d', r' := NumbersOf(e, p + 1);
    AdjacentNames(e, 11 * p, d, r, p + 1, d', r');
  }

  lemma OneAndOne()
    ensures Digits(1, 1) == "11" && Digits(11, 0) == "11"
  {
    Ito10IsTail(1);
    assert Rest(10, false, 1) == 0;
    assert Ito10(1) == "1";
    TwoDigits(11, 1, 1);
  }

  /** With nothing between decimal disk and partition numbers, two devices of controller 0 share a name if and
      only if disks have partitions and the twelfth disk is in range. */
  lemma AdjacentNamesCollideExactly(table: Table, major: u32, rec: Record)
    requires Implicit(table, major, rec) && Adjacent(rec) && table[major].value.ctrlno == 0
    ensures Ambiguous(rec) <==>
            exists m: u32, m': u32 :: SharedName(table, major, rec, m, m')
  {
    var e := table[major].value;
    if Ambiguous(rec) {
      Elevens(e);
      assert SharedName(table, major, rec, 11 * rec.pcount, rec.pcount + 1);
    }
    forall m: u32, m': u32 | SharedName(table, major, rec, m, m')
      ensures Ambiguous(rec)
    {
      InRangeDivides(rec, m);
      SharedNameIsAmbiguous(e, m, m');
    }
  }

  predicate SharedName(table: Table, major: u32, rec: Record, m: u32, m': u32) {
    m != m' && InRange(rec, m) && InRange(rec, m') && NameOf(table, major, m) == NameOf(table, major, m')
  }

  /** For instance: sixteen disks of sixteen minors, disk 11 and partition 1 of disk 1. */
  lemma DecimalNamesCollide() returns (table: Table, major: u32)
    ensures NameOf(table, major, 176) == NameOf(table, major, 17) == Some("hd11")
  {
    var rec := Record("hd", None, AsDecimal(""), "", 16, 16, None);
    table := seq(256, i => if i == 3 then Some(Entry(0, rec)) else None);
    major := 3;
    var e := table[major].value;
    assert InRange(rec, 176) && InRange(rec, 17);
    Elevens(e);
    ZeroController(e, 17, 1, 1);
    OneAndOne();
    assert "hd" + ("" + "11") == "hd11";
  }

  // ---- explicit controllers

  /** The text of a controller number: decimal, of a signed word. */
  ghost predicate PrintsInt(s: string, x: u32) {
    if x < 0x8000_0000 then Decimal(s) && Decode10(s) == x
    else s != "" && s[0] == '-' && Decimal(s[1..]) && Decode10(s[1..]) == 0x1_0000_0000 - x
  }

  lemma NegativePrints(y: u32)
    ensures var s := "-" + Ito10(y); s != "" && s[0] == '-' && Decimal(s[1..]) && Decode10(s[1..]) == y
  {
    DecimalOfWord(y);
    assert ("-" + Ito10(y))[1..] == Ito10(y);
  }

  lemma NegativeInt(x: u32, y: u32)
    requires x >= 0x8000_0000 && y == 0x1_0000_0000 - x
    ensures PrintInt(x) == "-" + Ito10(y)
  {
  }

  lemma PrintIntPrints(x: u32)
    ensures PrintsInt(PrintInt(x), x)
  {
    if x < 0x8000_0000 {
      DecimalOfWord(x);
      assert PrintInt(x) == Ito10(x);
    } else {
      var y: u32 := 0x1_0000_0000 - x;
      NegativeInt(x, y);
      NegativePrints(y);
    }
  }

  /** A disk text that begins with no digit, so that a controller number before it ends where it begins. */
  predicate Delimited(rec: Record) {
    rec.disk.AsDecimal? ==> rec.disk.prefix != "" && !IsDigit(rec.disk.prefix[0])
  }

  /** A text that begins with no digit. */
  predicate NoDigitFirst(t: string) {
    t != "" && !IsDigit(t[0])
  }

  lemma DigitsEnd(x: string, x': string, t: string, t': string)
    requires AllDigits(x) && AllDigits(x') && NoDigitFirst(t) && NoDigitFirst(t') && x + t == x' + t'
    ensures x == x' && t == t'
  {
    SameSplit(x, x', t, t', 0, NoDigit);
  }

  lemma SameHead(x: string, x': string, t: string, t': string)
    requires x != "" && x' != "" && x + t == x' + t'
    ensures x[0] == x'[0] && x[1..] + t == x'[1..] + t'
  {
    assert (x + t)[0] == x[0] && (x' + t')[0] == x'[0];
    assert (x + t)[1..] == x[1..] + t && (x' + t')[1..] == x'[1..] + t';
  }

  lemma SignedEnds(x: string, x': string, c: u32, c': u32, t: string, t': string)
    requires PrintsInt(x, c) && PrintsInt(x', c') && NoDigitFirst(t) && NoDigitFirst(t') && x + t == x' + t'
    ensures c == c' && t == t'
  {
    SameHead(x, x', t, t');
    if c < 0x8000_0000 {
      DigitsEnd(x, x', t, t');
    } else {
      DigitsEnd(x[1..], x'[1..], t, t');
    }
  }

  lemma PrintIntEnds(c: u32, c': u32, t: string, t': string)
    requires NoDigitFirst(t) && NoDigitFirst(t') && PrintInt(c) + t == PrintInt(c') + t'
    ensures c == c' && t == t'
  {
    PrintIntPrints(c);
    PrintIntPrints(c');
    SignedEnds(PrintInt(c), PrintInt(c'), c, c', t, t');
  }

  lemma DiskTextFirst(rec: Record, o: u32)
    requires Delimited(rec) && o < 0xffff_ffff
    ensures NoDigitFirst(DiskText(rec, o))
  {
    if rec.disk.AsLetters? {
      Ito26IsAlpha(o);
      AlphaValue(o);
    }
  }

  lemma ExplicitName(e: Entry, m: u32, o: u32, r: u32)
    requires e.rec.controller.Some? && e.rec.pcount > 0 && m < MAX_MINOR
    requires o == Disk(e.rec, m) && r == Partition(e.rec, m)
    ensures Assembled(e, m)
            == e.rec.name + (e.rec.controller.value
                             + (PrintInt(e.ctrlno) + (DiskText(e.rec, o) + Part(e.rec.partition, r))))
  {
    PartitionIsPart(e.rec, m);
    WrapSmall(o);
    assert Offset(e, m) == o;
    var n, c, i, d, p := e.rec.name, e.rec.controller.value, PrintInt(e.ctrlno), DiskText(e.rec, o),
                         Part(e.rec.partition, r);
    assert ((n + (c + i)) + d) + p == n + (c + (i + (d + p)));
  }

  lemma ExplicitDistinct(e: Entry, e': Entry, m: u32, m': u32)
    requires e.rec == e'.rec && e.rec.controller.Some? && Delimited(e.rec) && Separable(e.rec)
    requires InRange(e.rec, m) && InRange(e.rec, m')
    ensures e.rec.pcount > 0
    ensures Assembled(e, m) == Assembled(e', m') <==> e.ctrlno == e'.ctrlno && m == m'
  {
    var rec := e.rec;
    InRangeDivides(rec, m);
    DiskFits(rec, m);
    DiskFits(rec, m');
    PartitionFits(rec, m);
    PartitionFits(rec, m');
    var o, r, o', r' := Disk(rec, m), Partition(rec, m), Disk(rec, m'), Partition(rec, m');
    ExplicitName(e, m, o, r);
    ExplicitName(e', m', o', r');
    TailsDistinct(rec, e.ctrlno, e'.ctrlno, o, o', r, r');
    Recompose(rec, m, m');
  }

  /** What follows name and controller text tells controller, disk and partition number. */
  lemma TailsDistinct(rec: Record, c: u32, c': u32, o: u32, o': u32, r: u32, r': u32)
    requires Delimited(rec) && Separable(rec) && o < 0xffff_ffff && o' < 0xffff_ffff
    ensures var t := PrintInt(c) + (DiskText(rec, o) + Part(rec.partition, r));
            var t' := PrintInt(c') + (DiskText(rec, o') + Part(rec.partition, r'));
            forall name, ctl :: name + (ctl + t) == name + (ctl + t') <==> c == c' && o == o' && r == r'
  {
    var d, d' := DiskText(rec, o) + Part(rec.partition, r), DiskText(rec, o') + Part(rec.partition, r');
    var t, t' := PrintInt(c) + d, PrintInt(c') + d';
    DiskTextFirst(rec, o);
    DiskTextFirst(rec, o');
    if t == t' {
      PrintIntEnds(c, c', d, d');
      NumberAndPart(rec, o, o', r, r');
    }
    forall name, ctl
      ensures name + (ctl + t) == name + (ctl + t') <==> t == t'
    {
      SameBase(ctl, t, t');
      SameBase(name, ctl + t, ctl + t');
    }
  }

  predicate Explicit(table: Table, major: u32, rec: Record) {
    && major < MAX_BLKDEV && table[major].Some? && table[major].value.rec == rec
    && rec.controller.Some? && rec.ext.None?
  }

  /** Majors that share a record with an explicit controller under different controller numbers never give two
      devices one name, if the record is separable and its disk text begins with no digit. */
  lemma ExplicitNamesDistinct(table: Table, major: u32, major': u32, m: u32, m': u32, rec: Record)
    requires Explicit(table, major, rec) && Explicit(table, major', rec) && Delimited(rec) && Separable(rec)
    requires major != major' ==> table[major].value.ctrlno != table[major'].value.ctrlno
    requires InRange(rec, m) && InRange(rec, m')
    ensures NameOf(table, major, m).Some?
    ensures NameOf(table, major, m) == NameOf(table, major', m') <==> major == major' && m == m'
  {
    ExplicitDistinct(table[major].value, table[major'].value, m, m');
  }

  // ---- the name written out

  /** A table lookup without a device: NULL exactly from 255 on, "nodev" without a record or beyond its minors, the
      exception's name for its minor. */
  lemma NoDeviceName(table: Table, major: u32, minor: u32)
    ensures NameOf(table, major, minor) == None <==> major >= 255 || minor >= 255
    ensures major < 255 && minor < 255 && table[major].None? ==> NameOf(table, major, minor) == Some("nodev")
    ensures major < 255 && minor < 255 && table[major].Some? ==>
              var rec := table[major].value.rec;
              var count := (rec.dcount * rec.pcount) % 0x1_0000_0000;
              && (minor >= count ==> NameOf(table, major, minor) == Some("nodev"))
              && (minor < count && rec.ext.Some? && rec.ext.value.minor == minor ==>
                    NameOf(table, major, minor) == Some(rec.ext.value.name))
  {
  }

  /** The text of a disk number: letters in their order, with none for the one number that has no successor, or
      decimal after the prefix. */
  ghost predicate PrintsDisk(s: string, disk: DiskFormat, n: nat) {
    match disk
    case AsLetters => if n == 0xffff_ffff then s == "" else Lower(s) && s != "" && Decode26(s) == n
    case AsDecimal(prefix) => prefix <= s && Decimal(s[|prefix|..]) && Decode10(s[|prefix|..]) == n
  }

  /** The device a minor stands for: its disk, counted over all controllers if they are implicit, and partition. */
  function DiskNumber(e: Entry, minor: u32): nat
    requires e.rec.pcount > 0
  {
    var disk := minor / e.rec.pcount;
    (disk + if e.rec.controller.Some? then 0 else e.ctrlno * e.rec.dcount) % 0x1_0000_0000
  }

  lemma DiskWritten(rec: Record, n: u32)
    ensures PrintsDisk(DiskText(rec, n), rec.disk, n)
  {
    if rec.disk.AsLetters? {
      Ito26IsAlpha(n);
      if n < 0xffff_ffff {
        AlphaDecodes(n);
      }
    } else {
      DecimalOfWord(n);
      assert DiskText(rec, n)[|rec.disk.prefix|..] == Ito10(n);
    }
  }

  lemma PartWritten(rec: Record, m: u32) returns (p: string)
    requires rec.pcount > 0 && m < MAX_MINOR
    ensures PartitionText(rec, m) == if m % rec.pcount == 0 then "" else rec.partition + p
    ensures Decimal(p) && Decode10(p) == m % rec.pcount
  {
    PartitionFits(rec, m);
    p := Ito10(Partition(rec, m));
    DecimalOfWord(Partition(rec, m));
  }

  /** A device with a name of its own: in range, and not the exception's minor. */
  predicate OwnName(rec: Record, minor: u32) {
    && minor < 255 && minor < (rec.dcount * rec.pcount) % 0x1_0000_0000
    && !(rec.ext.Some? && rec.ext.value.minor == minor)
  }

  lemma OwnNameAssembled(table: Table, major: u32, minor: u32)
    requires major < 255 && table[major].Some? && OwnName(table[major].value.rec, minor)
    ensures table[major].value.rec.pcount > 0
    ensures NameOf(table, major, minor) == Some(Assembled(table[major].value, minor))
  {
    InRangeDivides(table[major].value.rec, minor);
  }

  lemma OffsetIsNumber(e: Entry, minor: u32)
    requires e.rec.pcount > 0
    ensures Offset(e, minor) == DiskNumber(e, minor)
  {
  }

  lemma AssembledWritten(e: Entry, minor: u32) returns (c: string, d: string, p: string)
    requires e.rec.pcount > 0 && minor < MAX_MINOR
    ensures PrintsInt(c, e.ctrlno) && PrintsDisk(d, e.rec.disk, Offset(e, minor))
    ensures Decimal(p) && Decode10(p) == minor % e.rec.pcount
    ensures Assembled(e, minor) ==
              e.rec.name + (if e.rec.controller.Some? then e.rec.controller.value + c else "") + d
              + (if minor % e.rec.pcount == 0 then "" else e.rec.partition + p)
  {
    c := PrintInt(e.ctrlno);
    PrintIntPrints(e.ctrlno);
    d := DiskText(e.rec, Offset(e, minor));
    DiskWritten(e.rec, Offset(e, minor));
    p := PartWritten(e.rec, minor);
  }

  /** The name of such a device: the record's name, the controller text and number if they are explicit, the disk
      text, and for a partition the partition text and number. */
  lemma NameWritten(table: Table, major: u32, minor: u32) returns (c: string, d: string, p: string)
    requires major < 255 && table[major].Some? && OwnName(table[major].value.rec, minor)
    ensures var (e, rec) := (table[major].value, table[major].value.rec);
            && rec.pcount > 0
            && PrintsInt(c, e.ctrlno) && PrintsDisk(d, rec.disk, DiskNumber(e, minor))
            && Decimal(p) && Decode10(p) == minor % rec.pcount
            && NameOf(table, major, minor) ==
                 Some(rec.name + (if rec.controller.Some? then rec.controller.value + c else "") + d
                      + (if minor % rec.pcount == 0 then "" else rec.partition + p))
  {
    OwnNameAssembled(table, major, minor);
    OffsetIsNumber(table[major].value, minor);
    c, d, p := AssembledWritten(table[major].value, minor);
  }
}
