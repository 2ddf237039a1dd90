/**
 The line of a commit message that names one topic's offset ranges, within a byte limit.
 */
module OffsetsLine {
  import opened FlushKey

  datatype Piece = Piece(partition: nat, first: nat, last: nat)

  // ------------------------------------------------------------------------------------------
  // Bytes
  // ------------------------------------------------------------------------------------------

  function Width(c: char): nat {
    if c as int < 0x80 then 1 else if c as int < 0x800 then 2 else if c as int < 0x1_0000 then 3 else 4
  }

  /** The bytes of a character as UTF-8 has them (section 3 of RFC 3629). */
  function Encoded(c: char): (bytes: seq<int>)
    ensures |bytes| == Width(c)
  {
    var n := c as int;
    var m := n / 0x40;
    var l := m / 0x40;
    if n < 0x80 then [n]
    else if n < 0x800 then [0xC0 + m, 0x80 + n % 0x40]
    else if n < 0x1_0000 then [0xE0 + l, 0x80 + m % 0x40, 0x80 + n % 0x40]
    else [0xF0 + l / 0x40, 0x80 + l % 0x40, 0x80 + m % 0x40, 0x80 + n % 0x40]
  }

  /** The character a decoder reads from these bytes: the first tells how many follow. */
  function Decoded(bytes: seq<int>): int
    requires bytes != []
  {
    if bytes[0] < 0x80 then bytes[0]
    else if bytes[0] < 0xE0 && |bytes| == 2 then (bytes[0] - 0xC0) * 0x40 + (bytes[1] - 0x80)
    else if bytes[0] < 0xF0 && |bytes| == 3 then
      ((bytes[0] - 0xE0) * 0x40 + (bytes[1] - 0x80)) * 0x40 + (bytes[2] - 0x80)
    else if |bytes| == 4 then
      (((bytes[0] - 0xF0) * 0x40 + (bytes[1] - 0x80)) * 0x40 + (bytes[2] - 0x80)) * 0x40 + (bytes[3] - 0x80)
    else -1
  }

  lemma EncodedDecodes(c: char)
    ensures Decoded(Encoded(c)) == c as int
    ensures forall i :: 0 < i < |Encoded(c)| ==> 0x80 <= Encoded(c)[i] < 0xC0
  {
  }

  /** The length of the UTF-8 encoding. */
  function Bytes(s: string): nat {
    if s == "" then 0 else Bytes(s[..|s| - 1]) + Width(s[|s| - 1])
  }

  lemma {:induction false} BytesAppend(s: string, t: string)
    ensures Bytes(s + t) == Bytes(s) + Bytes(t)
  {
    if t == "" {
      assert s + t == s;
    } else {
      var st := s + t;
      assert st[..|st| - 1] == s + t[..|t| - 1];
      BytesAppend(s, t[..|t| - 1]);
    }
  }

  predicate Ascii(s: string) { forall i :: 0 <= i < |s| ==> s[i] as int < 0x80 }

  lemma {:induction false} BytesAscii(s: string)
    requires Ascii(s)
    ensures Bytes(s) == |s|
  {
    if s != "" {
      assert s == s[..|s| - 1] + [s[|s| - 1]];
      BytesAscii(s[..|s| - 1]);
    }
  }

  // ------------------------------------------------------------------------------------------
  // The two forms
  // ------------------------------------------------------------------------------------------

  function Part(p: Piece): string {
    "p" + Decimal(p.partition) + ":" + Decimal(p.first) + "-" + Decimal(p.last)
  }

  /** The head and the first ranges, separated by single spaces. */
  function Listed(head: string, pieces: seq<Piece>): string {
    if pieces == [] then head
    else Listed(head, pieces[..|pieces| - 1]) + " " + Part(pieces[|pieces| - 1])
  }

  function Marker(dropped: nat): string { " ... (+" + Decimal(dropped) + " more)" }

  function Head(topic: string): string { "offsets " + topic }

  function Whole(topic: string, pieces: seq<Piece>): string {
    Listed(Head(topic), pieces) + " (" + Decimal(|pieces|) + ")"
  }

  /** The first `kept` ranges, and how many were dropped. */
  function Cut(topic: string, pieces: seq<Piece>, kept: nat): string
    requires kept <= |pieces|
  {
    Listed(Head(topic), pieces[..kept]) + Marker(|pieces| - kept)
  }

  /** The two forms cannot be confused. */
  lemma FormsDiffer(topic: string, pieces: seq<Piece>, topic': string, pieces': seq<Piece>, kept: nat)
    requires kept <= |pieces'|
    ensures Whole(topic, pieces) != Cut(topic', pieces', kept)
  {
    var a, b := Whole(topic, pieces), Cut(topic', pieces', kept);
    var digits := Decimal(|pieces|);
    assert a[|a| - 2] == digits[|digits| - 1];
    assert digits[|digits| - 1] in digits;
    assert b[|b| - 2] == 'e';
  }

  lemma {:induction false} NextDecimal(n: nat)
    ensures |Decimal(n)| <= |Decimal(n + 1)| <= |Decimal(n)| + 1
  {
    if n >= 10 {
      if n % 10 == 9 { NextDecimal(n / 10); }
    }
  }

  lemma DecimalAscii(n: nat)
    ensures Ascii(Decimal(n))
  {
    forall i | 0 <= i < |Decimal(n)| ensures Decimal(n)[i] as int < 0x80 {
      assert Decimal(n)[i] in Decimal(n);
    }
  }

  lemma MarkerBytes(dropped: nat)
    ensures Bytes(Marker(dropped)) == |Decimal(dropped)| + 13
  {
    var m := Marker(dropped);
    DecimalAscii(dropped);
    assert Ascii(" ... (+") && Ascii(" more)");
    BytesAscii(m);
  }

  lemma PartBytes(p: Piece)
    ensures Bytes(Part(p)) == |Part(p)| >= 6
  {
    DecimalAscii(p.partition);
    DecimalAscii(p.first);
    DecimalAscii(p.last);
    BytesAscii(Part(p));
  }

  lemma ListedBytes(head: string, pieces: seq<Piece>, k: nat)
    requires k < |pieces|
    ensures Bytes(Listed(head, pieces[..k + 1])) == Bytes(Listed(head, pieces[..k])) + 1 + Bytes(Part(pieces[k]))
  {
    assert pieces[..k + 1][..k] == pieces[..k];
    BytesAppend(Listed(head, pieces[..k]) + " ", Part(pieces[k]));
    BytesAppend(Listed(head, pieces[..k]), " ");
    BytesAscii(" ");
  }

  lemma CutBytes(topic: string, pieces: seq<Piece>, kept: nat)
    requires kept <= |pieces|
    ensures Bytes(Cut(topic, pieces, kept))
            == Bytes(Listed(Head(topic), pieces[..kept])) + Bytes(Marker(|pieces| - kept))
  {
    BytesAppend(Listed(Head(topic), pieces[..kept]), Marker(|pieces| - kept));
  }

  /** Keeping one more range makes the line longer, even when the count in the marker loses a digit. */
  lemma CutStep(topic: string, pieces: seq<Piece>, k: nat)
    requires k < |pieces|
    ensures Bytes(Cut(topic, pieces, k)) < Bytes(Cut(topic, pieces, k + 1))
  {
    CutBytes(topic, pieces, k);
    CutBytes(topic, pieces, k + 1);
    ListedBytes(Head(topic), pieces, k);
    PartBytes(pieces[k]);
    MarkerBytes(|pieces| - k);
    MarkerBytes(|pieces| - k - 1);
    NextDecimal(|pieces| - k - 1);
  }

  lemma {:induction false} CutGrows(topic: string, pieces: seq<Piece>, j: nat, k: nat)
    requires j <= k <= |pieces|
    ensures Bytes(Cut(topic, pieces, j)) <= Bytes(Cut(topic, pieces, k))
    decreases k - j
  {
    if j < k {
      CutGrows(topic, pieces, j, k - 1);
      CutStep(topic, pieces, k - 1);
    }
  }

  predicate Fits(topic: string, pieces: seq<Piece>, kept: nat, limit: nat)
    requires kept <= |pieces|
  {
    Bytes(Cut(topic, pieces, kept)) <= limit
  }

  /** `kept` is the longest prefix that fits with its own marker, or 0 if none does. */
  predicate Longest(topic: string, pieces: seq<Piece>, kept: nat, limit: nat)
    requires kept <= |pieces|
  {
    && (kept == 0 || Fits(topic, pieces, kept, limit))
    && forall k :: kept < k <= |pieces| ==> !Fits(topic, pieces, k, limit)
  }

  /** Stopping at the first range that does not fit misses none that would. */
  lemma GreedyIsLongest(topic: string, pieces: seq<Piece>, kept: nat, limit: nat)
    requires kept <= |pieces|
    requires kept == 0 || Fits(topic, pieces, kept, limit)
    requires kept == |pieces| || !Fits(topic, pieces, kept + 1, limit)
    ensures Longest(topic, pieces, kept, limit)
    ensures Fits(topic, pieces, kept, limit) <==> Fits(topic, pieces, 0, limit)
    ensures Whole(topic, pieces) != Cut(topic, pieces, kept)
  {
    FormsDiffer(topic, pieces, topic, pieces, kept);
    forall k | kept < k <= |pieces| ensures !Fits(topic, pieces, k, limit) {
      CutGrows(topic, pieces, kept + 1, k);
    }
    CutGrows(topic, pieces, 0, kept);
  }

  predicate Sized(topic: string, pieces: seq<Piece>, kept: nat, size: int)
    requires kept <= |pieces|
  {
    size == Bytes(Listed(Head(topic), pieces[..kept]))
  }

  /** What admitting one more range costs. */
  lemma NextSize(topic: string, pieces: seq<Piece>, kept: nat, size: int, limit: nat)
    requires kept < |pieces| && Sized(topic, pieces, kept, size)
    ensures Sized(topic, pieces, kept + 1, size + 1 + Bytes(Part(pieces[kept])))
    ensures size + 1 + Bytes(Part(pieces[kept])) + Bytes(Marker(|pieces| - kept - 1)) <= limit
            <==> Fits(topic, pieces, kept + 1, limit)
  {
    ListedBytes(Head(topic), pieces, kept);
    CutBytes(topic, pieces, kept + 1);
  }

  /** Ranges are admitted one by one against the marker that would follow them. */
  method Admit(topic: string, ranges: seq<Piece>, limit: nat) returns (kept: nat)
    ensures kept <= |ranges| && Longest(topic, ranges, kept, limit)
    ensures Fits(topic, ranges, kept, limit) <==> Fits(topic, ranges, 0, limit)
    ensures Whole(topic, ranges) != Cut(topic, ranges, kept)
  {
    var size, index, full := Bytes(Head(topic)), 0, false;
    kept := 0;
    while index < |ranges| && !full
      invariant kept <= index <= |ranges| && (full || kept == index) && Sized(topic, ranges, kept, size)
      invariant kept > 0 ==> Fits(topic, ranges, kept, limit)
      invariant full ==> kept < |ranges| && !Fits(topic, ranges, kept + 1, limit)
      decreases |ranges| - index, !full
    {
      NextSize(topic, ranges, index, size, limit);
      var grown := size + 1 + Bytes(Part(ranges[index]));
      if grown + Bytes(Marker(|ranges| - index - 1)) > limit {
        full := true;
      } else {
        size, kept, index := grown, index + 1, index + 1;
      }
    }
    GreedyIsLongest(topic, ranges, kept, limit);
  }

  /** The full line if it fits; otherwise the longest prefix that fits with its own marker, or, if none does,
      the head and the marker alone. */
  method OffsetsLine(topic: string, ranges: seq<Piece>, limit: nat) returns (line: string)
    ensures line == Whole(topic, ranges) <==> Bytes(Whole(topic, ranges)) <= limit
    ensures line != Whole(topic, ranges) ==>
              exists kept | 0 <= kept <= |ranges| ::
                Longest(topic, ranges, kept, limit) && line == Cut(topic, ranges, kept)
    ensures Bytes(line) <= limit <==> Bytes(Whole(topic, ranges)) <= limit || Fits(topic, ranges, 0, limit)
  {
    line := Whole(topic, ranges);
    if Bytes(line) > limit {
      var kept := Admit(topic, ranges, limit);
      line := Cut(topic, ranges, kept);
    }
  }

  // ------------------------------------------------------------------------------------------
  // Reading a line back
  // ------------------------------------------------------------------------------------------

  /** The number a run of digits stands for. */
  function Value(digits: string): int {
    if digits == "" then 0 else 10 * Value(digits[..|digits| - 1]) + (digits[|digits| - 1] as int - '0' as int)
  }

  lemma {:induction false} ValueOfDecimal(n: nat)
    ensures Value(Decimal(n)) == n
  {
    if n >= 10 {
      ValueOfDecimal(n / 10);
      assert Decimal(n)[..|Decimal(n)| - 1] == Decimal(n / 10);
    } else {
      assert Decimal(n)[..0] == "";
    }
  }

  /** The text up to the first such character, and the text after it. */
  function CutAt(s: string, c: char): (string, string) {
    if s == "" then ("", "")
    else if s[0] == c then ("", s[1..])
    else var (before, after) := CutAt(s[1..], c); ([s[0]] + before, after)
  }

  lemma {:induction false} CutAtFirst(x: string, c: char, rest: string)
    requires c !in x
    ensures CutAt(x + [c] + rest, c) == (x, rest)
  {
    var s := x + [c] + rest;
    if x == "" {
      assert s[1..] == rest;
    } else {
      assert s[1..] == x[1..] + [c] + rest;
      CutAtFirst(x[1..], c, rest);
      assert x == [x[0]] + x[1..];
    }
  }

  /** A word read as a range: a `p`, the partition, a colon, the first offset, a dash, the last offset. */
  function ReadPart(word: string): (int, int, int) {
    if word == "" then (0, 0, 0)
    else
      var (partition, span) := CutAt(word[1..], ':');
      var (first, last) := CutAt(span, '-');
      (Value(partition), Value(first), Value(last))
  }

  lemma PartReads(p: Piece)
    ensures ReadPart(Part(p)) == (p.partition, p.first, p.last) && ' ' !in Part(p)
  {
    NoSpaces(p.partition);
    NoSpaces(p.first);
    NoSpaces(p.last);
    TextReads(Part(p), Decimal(p.partition), Decimal(p.first), Decimal(p.last));
    ValueOfDecimal(p.partition);
    ValueOfDecimal(p.first);
    ValueOfDecimal(p.last);
  }

  lemma TextReads(text: string, a: string, b: string, c: string)
    requires text == "p" + a + ":" + b + "-" + c && ':' !in a && '-' !in b
    ensures ReadPart(text) == (Value(a), Value(b), Value(c))
  {
    assert text[1..] == a + [':'] + (b + ['-'] + c);
    CutAtFirst(a, ':', b + ['-'] + c);
    CutAtFirst(b, '-', c);
  }

  /** The words between single spaces. */
  function Words(s: string): (ws: seq<string>)
    ensures ws != []
  {
    if s == "" then [""]
    else
      var ws := Words(s[1..]);
      if s[0] == ' ' then [""] + ws else [[s[0]] + ws[0]] + ws[1..]
  }

  lemma {:induction false} WordsCut(x: string, rest: string)
    requires ' ' !in x
    ensures Words(x + [' '] + rest) == [x] + Words(rest)
  {
    var s := x + [' '] + rest;
    if x == "" {
      assert s[1..] == rest;
    } else {
      assert s[1..] == x[1..] + [' '] + rest;
      WordsCut(x[1..], rest);
      assert x == [x[0]] + x[1..];
    }
  }

  lemma {:induction false} OneWord(x: string)
    requires ' ' !in x
    ensures Words(x) == [x]
  {
    if x != "" {
      OneWord(x[1..]);
      assert x == [x[0]] + x[1..];
    }
  }

  function Parts(pieces: seq<Piece>): (ps: seq<string>)
    ensures |ps| == |pieces| && forall i :: 0 <= i < |ps| ==> ps[i] == Part(pieces[i])
  {
    seq(|pieces|, i requires 0 <= i < |pieces| => Part(pieces[i]))
  }

  /** What follows the head. */
  function Trail(pieces: seq<Piece>): string {
    if pieces == [] then "" else Trail(pieces[..|pieces| - 1]) + [' '] + Part(pieces[|pieces| - 1])
  }

  lemma {:induction false} ListedIs(head: string, pieces: seq<Piece>)
    ensures Listed(head, pieces) == head + Trail(pieces)
  {
    if pieces != [] {
      var n := |pieces| - 1;
      ListedIs(head, pieces[..n]);
      assert head + Trail(pieces[..n]) + [' '] + Part(pieces[n])
             == head + (Trail(pieces[..n]) + [' '] + Part(pieces[n]));
    }
  }

  /** The words after the head: an empty one, the ranges, and what follows them. */
  lemma {:induction false} TrailWords(pieces: seq<Piece>, rest: string)
    ensures Words(Trail(pieces) + [' '] + rest) == [""] + Parts(pieces) + Words(rest)
    decreases |pieces|
  {
    if pieces == [] {
      WordsCut("", rest);
      assert [""] + Parts(pieces) + Words(rest) == [""] + Words(rest);
    } else {
      var n := |pieces| - 1;
      TrailWords(pieces[..n], Part(pieces[n]) + [' '] + rest);
      PartReads(pieces[n]);
      WordsCut(Part(pieces[n]), rest);
      Regroup(Trail(pieces[..n]), Part(pieces[n]), rest);
      assert Parts(pieces) == Parts(pieces[..n]) + [Part(pieces[n])];
      assert [""] + Parts(pieces[..n]) + ([Part(pieces[n])] + Words(rest)) == [""] + Parts(pieces) + Words(rest);
    }
  }

  lemma Regroup(a: string, b: string, c: string)
    ensures a + [' '] + b + [' '] + c == a + [' '] + (b + [' '] + c)
  {
  }

  /** The line's words after its head, if `end` is what follows the ranges. */
  lemma LineWords(line: string, head: string, pieces: seq<Piece>, end: string)
    requires line == Listed(head, pieces) + [' '] + end
    ensures head <= line && Words(line[|head|..]) == [""] + Parts(pieces) + Words(end)
  {
    ListedIs(head, pieces);
    TrailWords(pieces, end);
    Behind(line, head, Trail(pieces), end);
  }

  lemma Behind(line: string, head: string, trail: string, end: string)
    requires line == head + trail + [' '] + end
    ensures head <= line && line[|head|..] == trail + [' '] + end
  {
  }

  /** These words are these ranges, in order, each with its own partition, first and last offset. */
  predicate SayRanges(ws: seq<string>, pieces: seq<Piece>) {
    && |ws| == |pieces|
    && forall i :: 0 <= i < |ws| ==> ReadPart(ws[i]) == (pieces[i].partition, pieces[i].first, pieces[i].last)
  }

  lemma PartsSay(pieces: seq<Piece>)
    ensures SayRanges(Parts(pieces), pieces)
  {
    forall i | 0 <= i < |pieces|
      ensures ReadPart(Parts(pieces)[i]) == (pieces[i].partition, pieces[i].first, pieces[i].last)
    {
      PartReads(pieces[i]);
    }
  }

  lemma NoSpaces(n: nat)
    ensures ' ' !in Decimal(n)
  {
  }

  /** A full line read back: after the head come its ranges, and then their number. */
  lemma WholeReads(topic: string, pieces: seq<Piece>)
    ensures var line, n := Whole(topic, pieces), |pieces|;
      && "offsets " + topic <= line
      && var ws := Words(line[|topic| + 8..]);
         && |ws| == n + 2 && SayRanges(ws[1..n + 1], pieces)
         && ws[n + 1] == "(" + Decimal(n) + ")" && Value(Decimal(n)) == n
  {
    var count := "(" + Decimal(|pieces|) + ")";
    NoSpaces(|pieces|);
    OneWord(count);
    ValueOfDecimal(|pieces|);
    PartsSay(pieces);
    assert Whole(topic, pieces) == Listed(Head(topic), pieces) + [' '] + count;
    LineWords(Whole(topic, pieces), Head(topic), pieces, count);
    assert ([""] + Parts(pieces) + [count])[1..|pieces| + 1] == Parts(pieces);
  }

  /** A truncated line read back: the ranges it kept, and how many it dropped. */
  lemma CutReads(topic: string, pieces: seq<Piece>, kept: nat)
    requires kept <= |pieces|
    ensures var line, dropped := Cut(topic, pieces, kept), |pieces| - kept;
      && "offsets " + topic <= line
      && var ws := Words(line[|topic| + 8..]);
         && |ws| == kept + 4 && SayRanges(ws[1..kept + 1], pieces[..kept])
         && ws[kept + 1..] == ["...", "(+" + Decimal(dropped), "more)"] && Value(Decimal(dropped)) == dropped
  {
    var end := "... (+" + Decimal(|pieces| - kept) + " more)";
    assert Cut(topic, pieces, kept) == Listed(Head(topic), pieces[..kept]) + [' '] + end;
    LineWords(Cut(topic, pieces, kept), Head(topic), pieces[..kept], end);
    MarkerWords(|pieces| - kept);
    ValueOfDecimal(|pieces| - kept);
    PartsSay(pieces[..kept]);
    var marker := ["...", "(+" + Decimal(|pieces| - kept), "more)"];
    assert ([""] + Parts(pieces[..kept]) + marker)[1..kept + 1] == Parts(pieces[..kept]);
    assert ([""] + Parts(pieces[..kept]) + marker)[kept + 1..] == marker;
  }

  lemma MarkerWords(dropped: nat)
    ensures Words("... (+" + Decimal(dropped) + " more)") == ["...", "(+" + Decimal(dropped), "more)"]
  {
    var count := "(+" + Decimal(dropped);
    NoSpaces(dropped);
    assert "... (+" + Decimal(dropped) + " more)" == "..." + [' '] + (count + [' '] + "more)");
    WordsCut("...", count + [' '] + "more)");
    WordsCut(count, "more)");
    OneWord("more)");
  }
}
