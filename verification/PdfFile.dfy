/**
 The object layout of an exported PDF: a file written with running offsets, and
 a reader that finds the objects through the cross-reference table (section
 7.5.4 of ISO 32000-1). Bytes are the characters of Latin-1.
 */
module PdfFile {
  import opened Outcomes
  import opened Text

  const HEADER := "%PDF-1.4\n"
  const FREE := "0000000000 65535 f \n"
  const IN_USE := " 00000 n \n"
  const START := "startxref\n"
  const END := "\n%%EOF\n"
  const LIMIT: nat := 10_000_000_000

  function Concat(parts: seq<string>): string {
    if parts == [] then "" else Concat(parts[..|parts| - 1]) + parts[|parts| - 1]
  }

  // --------------------------------------------------------------- numerals

  function Zeros(n: nat): (s: string)
    ensures |s| == n && AllDigits(s)
  {
    seq(n, i => '0')
  }

  /** `{n:010d}`. */
  function Padded(n: nat): (s: string)
    ensures AllDigits(s)
  {
    if |Decimal(n)| >= 10 then Decimal(n) else Zeros(10 - |Decimal(n)|) + Decimal(n)
  }

  lemma {:induction false} ValueAfterZeros(n: nat, s: string)
    requires AllDigits(s)
    ensures AllDigits(Zeros(n) + s) && Value(Zeros(n) + s) == Value(s)
    decreases |s|, n
  {
    var t := Zeros(n) + s;
    if s != [] {
      assert t[..|t| - 1] == Zeros(n) + s[..|s| - 1];
      ValueAfterZeros(n, s[..|s| - 1]);
    } else if n > 0 {
      assert t[..|t| - 1] == Zeros(n - 1) + s;
      ValueAfterZeros(n - 1, s);
    } else {
      assert t == s;
    }
  }

  function Power(k: nat): nat {
    if k == 0 then 1 else 10 * Power(k - 1)
  }

  lemma {:induction false} PowerIsLarge(k: nat)
    requires k > 0
    ensures Power(k) >= 10
  {
    if k > 1 {
      PowerIsLarge(k - 1);
    }
  }

  lemma {:induction false} DecimalLength(n: nat, k: nat)
    requires k > 0
    ensures |Decimal(n)| <= k <==> n < Power(k)
  {
    if k > 1 && n >= 10 {
      DecimalLength(n / 10, k - 1);
    } else if n < 10 {
      PowerIsLarge(k);
    } else {
      assert |Decimal(n / 10)| >= 1;
      assert Power(1) == 10 * Power(0);
    }
  }

  /** A padded number has ten digits exactly below 10^10, and reads back in any case. */
  lemma PaddedIsTenDigits(n: nat)
    ensures |Padded(n)| == 10 <==> n < LIMIT
    ensures Value(Padded(n)) == n
  {
    DecimalLength(n, 10);
    assert Power(10) == LIMIT by {
      assert Power(5) == 100_000;
      assert Power(10) == 100_000 * Power(5);
    }
    ValueOfDecimal(n);
    if |Decimal(n)| < 10 {
      ValueAfterZeros(10 - |Decimal(n)|, Decimal(n));
    }
  }

  // ------------------------------------------------------------------ layout

  /** Where the object with index `k` starts, and the cross-reference table for `k == |objects|`. */
  function OffsetOf(objects: seq<string>, k: nat): nat
    requires k <= |objects|
  {
    |HEADER| + |Concat(objects[..k])|
  }

  function EntryOf(offset: nat): string {
    Padded(offset) + IN_USE
  }

  function Entries(objects: seq<string>, n: nat): string
    requires n <= |objects|
  {
    if n == 0 then "" else Entries(objects, n - 1) + EntryOf(OffsetOf(objects, n - 1))
  }

  function TableHead(count: nat): string {
    "xref\n0 " + Decimal(count) + "\n"
  }

  function TrailerHead(count: nat): string {
    "trailer<< /Size " + Decimal(count) + " /Root 1 0 R >>\n"
  }

  function Trailer(count: nat, table: nat): string {
    TrailerHead(count) + START + Decimal(table) + END
  }

  function File(objects: seq<string>): string {
    HEADER + Concat(objects) + TableHead(|objects| + 1) + FREE + Entries(objects, |objects|)
    + Trailer(|objects| + 1, OffsetOf(objects, |objects|))
  }

  lemma NextOffset(objects: seq<string>, k: nat)
    requires k < |objects|
    ensures Concat(objects[..k + 1]) == Concat(objects[..k]) + objects[k]
    ensures OffsetOf(objects, k + 1) == OffsetOf(objects, k) + |objects[k]|
  {
    assert objects[..k + 1][..k] == objects[..k];
  }

  lemma NoObjects(objects: seq<string>)
    ensures Concat(objects[..0]) == "" && Entries(objects, 0) == ""
  {
  }

  /** The writer: it records the position before each object and prints the positions afterwards. */
  method WriteFile(objects: seq<string>) returns (out: string)
    ensures out == File(objects)
  {
    hide HEADER, FREE, Concat, TableHead, Trailer, EntryOf;
    out := HEADER;
    NoObjects(objects);
    var offsets: seq<nat> := [0];
    for k := 0 to |objects|
      invariant out == HEADER + Concat(objects[..k])
      invariant |offsets| == k + 1 && forall i :: 0 <= i < k ==> offsets[i + 1] == OffsetOf(objects, i)
    {
      NextOffset(objects, k);
      offsets := offsets + [|out|];
      out := out + objects[k];
    }
    assert objects[..|objects|] == objects;
    var table := |out|;
    var head := out;
    out := head + TableHead(|objects| + 1) + FREE;
    for k := 1 to |offsets|
      invariant out == HEADER + Concat(objects) + TableHead(|objects| + 1) + FREE + Entries(objects, k - 1)
    {
      out := out + EntryOf(offsets[k]);
    }
    out := out + Trailer(|objects| + 1, table);
  }

  // ------------------------------------------------------------------ reader

  /** `s` continues with `text` at `at`. */
  predicate HasAt(s: string, at: nat, text: string) {
    at + |text| <= |s| && s[at..at + |text|] == text
  }

  /** The end of the run of digits at `at`. */
  function DigitsEnd(s: string, at: nat): (end: nat)
    requires at <= |s|
    ensures at <= end <= |s| && AllDigits(s[at..end]) && (end < |s| ==> !IsDigit(s[end]))
    decreases |s| - at
  {
    if at == |s| || !IsDigit(s[at]) then at
    else
      var end := DigitsEnd(s, at + 1);
      assert s[at..end] == [s[at]] + s[at + 1..end];
      end
  }

  /** The start of the run of digits that ends at `end`. */
  function DigitsStart(s: string, end: nat): (at: nat)
    requires end <= |s|
    ensures at <= end && AllDigits(s[at..end]) && (at > 0 ==> !IsDigit(s[at - 1]))
  {
    if end == 0 || !IsDigit(s[end - 1]) then end
    else
      var at := DigitsStart(s, end - 1);
      assert s[at..end] == s[at..end - 1] + [s[end - 1]];
      at
  }

  /** The number printed between `startxref` and the end-of-file marker. */
  function ReadStart(file: string): Option<nat> {
    if |file| < |END| || !HasAt(file, |file| - |END|, END) then None
    else
      var end := |file| - |END|;
      var at := DigitsStart(file, end);
      if at == end || at < |START| || !HasAt(file, at - |START|, START) then None
      else Some(Value(file[at..end]))
  }

  /** The number of entries and the position of the first one, for a table at `at`. */
  function ReadTableHead(file: string, at: nat): Option<(nat, nat)> {
    if !HasAt(file, at, "xref\n0 ") then None
    else
      var digits := at + 7;
      var end := DigitsEnd(file, digits);
      if end == digits || !HasAt(file, end, "\n") then None
      else Some((Value(file[digits..end]), end + 1))
  }

  /** The offset of object `k`: entry `k` is the 20 bytes at 20 * k. */
  function ReadOffset(file: string, k: nat): Option<nat> {
    match ReadStart(file)
    case None => None
    case Some(at) =>
      match ReadTableHead(file, at)
      case None => None
      case Some(head) =>
        var entry := head.1 + 20 * k;
        if k < head.0 && entry + 20 <= |file| && AllDigits(file[entry..entry + 10]) && HasAt(file, entry + 10, IN_USE)
        then Some(Value(file[entry..entry + 10]))
        else None
  }

  lemma {:induction false} DigitsEndAt(s: string, at: nat, end: nat)
    requires at <= end <= |s| && AllDigits(s[at..end]) && (end < |s| ==> !IsDigit(s[end]))
    ensures DigitsEnd(s, at) == end
    decreases end - at
  {
    if at < end {
      assert s[at] == s[at..end][0];
      assert s[at + 1..end] == s[at..end][1..];
      DigitsEndAt(s, at + 1, end);
    }
  }

  lemma {:induction false} DigitsStartAt(s: string, at: nat, end: nat)
    requires at <= end <= |s| && AllDigits(s[at..end]) && (at > 0 ==> !IsDigit(s[at - 1]))
    ensures DigitsStart(s, end) == at
    decreases end
  {
    if at < end {
      assert s[end - 1] == s[at..end][end - 1 - at];
      assert s[at..end - 1] == s[at..end][..end - 1 - at];
      DigitsStartAt(s, at, end - 1);
    }
  }

  lemma PartAt(before: string, part: string, rest: string)
    ensures HasAt(before + part + rest, |before|, part)
  {
  }

  lemma PrefixOfPart(s: string, at: nat, part: string, rest: string)
    requires HasAt(s, at, part + rest)
    ensures HasAt(s, at, part) && HasAt(s, at + |part|, rest)
  {
    assert s[at..at + |part|] == (part + rest)[..|part|];
    assert s[at + |part|..at + |part| + |rest|] == (part + rest)[|part|..];
  }

  lemma EntryLength(offset: nat)
    ensures |EntryOf(offset)| == 20 <==> offset < LIMIT
  {
    PaddedIsTenDigits(offset);
  }

  lemma {:induction false} EntriesAreTwentyBytes(objects: seq<string>, n: nat)
    requires n <= |objects| && OffsetOf(objects, |objects|) < LIMIT
    ensures |Entries(objects, n)| == 20 * n
    ensures forall k :: 0 <= k < n ==> Entries(objects, n)[20 * k..20 * k + 20] == EntryOf(OffsetOf(objects, k))
  {
    hide EntryOf, OffsetOf;
    if n > 0 {
      EntriesAreTwentyBytes(objects, n - 1);
      OffsetsGrow(objects, n - 1);
      EntryLength(OffsetOf(objects, n - 1));
      var before, entry := Entries(objects, n - 1), EntryOf(OffsetOf(objects, n - 1));
      forall k | 0 <= k < n
        ensures Entries(objects, n)[20 * k..20 * k + 20] == EntryOf(OffsetOf(objects, k))
      {
        if k < n - 1 {
          assert (before + entry)[20 * k..20 * k + 20] == before[20 * k..20 * k + 20];
        } else {
          assert (before + entry)[20 * k..20 * k + 20] == entry;
        }
      }
    }
  }

  lemma {:induction false} OffsetsGrow(objects: seq<string>, k: nat)
    requires k <= |objects|
    ensures OffsetOf(objects, k) <= OffsetOf(objects, |objects|)
    decreases |objects| - k
  {
    if k < |objects| {
      NextOffset(objects, k);
      OffsetsGrow(objects, k + 1);
    }
  }

  lemma GroupMiddle(a: string, b: string, c: string, d: string, e: string)
    ensures a + b + c + d + e == a + (b + c + d) + e
  {
    assert a + b + c + d == a + (b + c + d);
  }

  lemma GroupRest(a: string, b: string, c: string, d: string, e: string, f: string)
    ensures a + (b + c) + d + e + f == a + b + (c + d + e + f)
  {
    assert a + (b + c) + d + e == a + b + (c + d + e);
  }

  /** The number after `startxref` is the position of the table. */
  lemma {:induction false} StartIsExact(objects: seq<string>)
    ensures
      var table := OffsetOf(objects, |objects|);
      ReadStart(File(objects)) == Some(table) && HasAt(File(objects), table, TableHead(|objects| + 1) + FREE + Entries(objects, |objects|))
  {
    hide HEADER, FREE, START, END, TableHead, TrailerHead, Entries, Concat, Decimal, HasAt, ReadStart;
    var table, count := OffsetOf(objects, |objects|), |objects| + 1;
    assert objects[..|objects|] == objects;
    var body := HEADER + Concat(objects);
    var middle := TableHead(count) + FREE + Entries(objects, |objects|);
    GroupMiddle(body, TableHead(count), FREE, Entries(objects, |objects|), Trailer(count, table));
    PartAt(body, middle, Trailer(count, table));
    var lead := TrailerHead(count);
    GroupTrailer(body + middle, lead, START, Decimal(table), END);
    ReadsStart(body + middle + lead, table);
  }

  lemma FileStarts(objects: seq<string>)
    ensures HasAt(File(objects), 0, "%PDF-1.4\n")
  {
    hide Concat, TableHead, FREE, Entries, Trailer, OffsetOf;
    GroupFile(HEADER, Concat(objects), TableHead(|objects| + 1), FREE, Entries(objects, |objects|),
              Trailer(|objects| + 1, OffsetOf(objects, |objects|)));
  }

  lemma TrailerFollows(objects: seq<string>)
    ensures
      var at := OffsetOf(objects, |objects|) + |TableHead(|objects| + 1) + FREE + Entries(objects, |objects|)|;
      HasAt(File(objects), at, TrailerHead(|objects| + 1))
  {
    hide HEADER, FREE, START, END, TableHead, TrailerHead, Entries, Concat, Decimal, HasAt;
    var table, count := OffsetOf(objects, |objects|), |objects| + 1;
    assert objects[..|objects|] == objects;
    var body, head, entries := HEADER + Concat(objects), TableHead(count), Entries(objects, |objects|);
    GroupMiddle(body, head, FREE, entries, Trailer(count, table));
    var middle := head + FREE + entries;
    GroupTrailer(body + middle, TrailerHead(count), START, Decimal(table), END);
    GroupThree(body + middle + TrailerHead(count), START, Decimal(table), END);
    PartAt(body + middle, TrailerHead(count), START + (Decimal(table) + END));
  }

  lemma GroupThree(a: string, b: string, c: string, d: string)
    ensures a + b + c + d == a + (b + (c + d))
  {
    assert a + b + c == a + (b + c);
  }

  /** The file begins with its version, and the trailer behind the table gives its size and its root. */
  lemma FileFrame(objects: seq<string>)
    requires OffsetOf(objects, |objects|) < LIMIT
    ensures
      var file, table := File(objects), OffsetOf(objects, |objects|);
      && HasAt(file, 0, "%PDF-1.4\n") && HasAt(file, table + |TableHead(|objects| + 1)|, "0000000000 65535 f \n")
      && HasAt(file, table + |TableHead(|objects| + 1)| + 20 * (|objects| + 1),
               "trailer<< /Size " + Decimal(|objects| + 1) + " /Root 1 0 R >>\n")
  {
    hide *;
    var table, head, entries := OffsetOf(objects, |objects|), TableHead(|objects| + 1), Entries(objects, |objects|);
    FileStarts(objects);
    FreeEntry();
    StartIsExact(objects);
    assert head + FREE + entries == head + (FREE + entries);
    PrefixOfPart(File(objects), table, head, FREE + entries);
    PrefixOfPart(File(objects), table + |head|, FREE, entries);
    TrailerFollows(objects);
    TrailerText(|objects| + 1);
    assert |entries| == 20 * |objects| by {
      EntriesAreTwentyBytes(objects, |objects|);
    }
  }

  lemma FreeEntry()
    ensures FREE == "0000000000 65535 f \n" && |FREE| == 20
  {
  }

  lemma TrailerText(count: nat)
    ensures TrailerHead(count) == "trailer<< /Size " + Decimal(count) + " /Root 1 0 R >>\n"
  {
  }

  lemma GroupFile(a: string, b: string, c: string, d: string, e: string, f: string)
    ensures a + b + c + d + e + f == a + (b + (c + (d + (e + f))))
  {
    assert c + (d + (e + f)) == c + d + e + f;
    assert a + b + c + d + e + f == a + b + (c + d + e + f);
  }

  lemma GroupTrailer(a: string, b: string, c: string, d: string, e: string)
    ensures a + (b + c + d + e) == a + b + c + d + e
  {
    assert a + (b + c + d) == a + b + c + d;
  }

  lemma ReadsStart(lead: string, n: nat)
    ensures ReadStart(lead + START + Decimal(n) + END) == Some(n)
  {
    assert |START| > 0 && !IsDigit(START[|START| - 1]);
    hide START, END, Decimal, Value, IsDigit, DigitsStart, HasAt;
    var file, digits := lead + START + Decimal(n) + END, Decimal(n);
    var at := |lead| + |START|;
    var end := at + |digits|;
    PartAt(lead + START + digits, END, "");
    assert lead + START + digits + END + "" == file;
    PartAt(lead, START, digits + END);
    assert lead + START + (digits + END) == file;
    assert file[at..end] == digits && file[at - 1] == START[|START| - 1];
    DigitsStartAt(file, at, end);
    ValueOfDecimal(n);
  }

  lemma ReadsTableHead(file: string, at: nat, count: nat)
    requires HasAt(file, at, TableHead(count))
    ensures ReadTableHead(file, at) == Some((count, at + |TableHead(count)|))
  {
    var lead, digits := "xref\n0 ", Decimal(count);
    assert TableHead(count) == lead + (digits + "\n");
    PrefixOfPart(file, at, lead, digits + "\n");
    PrefixOfPart(file, at + 7, digits, "\n");
    DigitsEndAt(file, at + 7, at + 7 + |digits|);
    ValueOfDecimal(count);
  }

  lemma ReadsEntry(file: string, at: nat, offset: nat)
    requires offset < LIMIT && HasAt(file, at, EntryOf(offset))
    ensures AllDigits(file[at..at + 10]) && Value(file[at..at + 10]) == offset && HasAt(file, at + 10, IN_USE)
  {
    PaddedIsTenDigits(offset);
    PrefixOfPart(file, at, Padded(offset), IN_USE);
  }

  /**
   For every list of objects below the ten-digit limit: the reader finds object
   `k + 1` at the offset of its entry, and there it is.
   */
  lemma {:induction false} OffsetsAreExact(objects: seq<string>, k: nat)
    requires k < |objects| && OffsetOf(objects, |objects|) < LIMIT
    ensures ReadOffset(File(objects), k + 1) == Some(OffsetOf(objects, k))
    ensures HasAt(File(objects), OffsetOf(objects, k), objects[k])
  {
    hide HasAt, TableHead, EntryOf, Trailer, File, Concat, ReadStart, ReadTableHead, OffsetOf, Value, Entries, IN_USE;
    var file, table, count := File(objects), OffsetOf(objects, |objects|), |objects| + 1;
    var head, entries := TableHead(count), Entries(objects, |objects|);
    StartIsExact(objects);
    assert head + FREE + entries == head + (FREE + entries);
    PrefixOfPart(file, table, head, FREE + entries);
    ReadsTableHead(file, table, count);
    PrefixOfPart(file, table + |head|, FREE, entries);
    EntriesAreTwentyBytes(objects, |objects|);
    var entry := EntryOf(OffsetOf(objects, k));
    assert entries == entries[..20 * k] + (entry + entries[20 * k + 20..]);
    PrefixOfPart(file, table + |head| + 20, entries[..20 * k], entry + entries[20 * k + 20..]);
    PrefixOfPart(file, table + |head| + 20 + 20 * k, entry, entries[20 * k + 20..]);
    OffsetsGrow(objects, k);
    ReadsEntry(file, table + |head| + 20 * (k + 1), OffsetOf(objects, k));
    EntryFits(file, table + |head| + 20 * (k + 1), OffsetOf(objects, k));
    ObjectAt(objects, k);
  }

  lemma EntryFits(file: string, at: nat, offset: nat)
    requires offset < LIMIT && HasAt(file, at, EntryOf(offset))
    ensures at + 20 <= |file|
  {
    EntryLength(offset);
  }

  lemma ObjectAt(objects: seq<string>, k: nat)
    requires k < |objects|
    ensures HasAt(File(objects), OffsetOf(objects, k), objects[k])
  {
    hide HEADER, TableHead, Trailer, FREE, Entries, Concat, HasAt;
    var tail := ConcatSplits(objects, k);
    var before := HEADER + Concat(objects[..k]);
    var head, entries, trailer := TableHead(|objects| + 1) + FREE, Entries(objects, |objects|), Trailer(|objects| + 1, OffsetOf(objects, |objects|));
    assert HEADER + Concat(objects) == before + (objects[k] + tail);
    GroupRest(before, objects[k], tail, head, entries, trailer);
    assert HEADER + Concat(objects) + TableHead(|objects| + 1) + FREE == HEADER + Concat(objects) + head;
    PartAt(before, objects[k], tail + head + entries + trailer);
  }

  lemma {:induction false} ConcatSplits(objects: seq<string>, k: nat) returns (tail: string)
    requires k < |objects|
    ensures Concat(objects) == Concat(objects[..k]) + objects[k] + tail
  {
    if k == |objects| - 1 {
      tail := "";
    } else {
      var init := objects[..|objects| - 1];
      tail := ConcatSplits(init, k);
      assert init[..k] == objects[..k];
      tail := tail + objects[|objects| - 1];
    }
  }
}
