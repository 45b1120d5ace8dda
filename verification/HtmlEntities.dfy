/** Decoding HTML entities in place (src/include/bx_html_entities.h:1529-1565). */
module HtmlEntities {
  import opened Sequences

  newtype byte = x: int | 0 <= x < 256

  const AMP: byte := 38
  const SEMICOLON: byte := 59
  const NUL: byte := 0

  /** An entity starts with '&' and has its only ';' at its end. */
  predicate IsEntity(e: seq<byte>) {
    && |e| >= 2 && e[0] == AMP && e[|e| - 1] == SEMICOLON
    && forall i | 0 <= i < |e| :: e[i] != NUL && (e[i] == SEMICOLON ==> i == |e| - 1)
  }

  type Entity = e: seq<byte> | IsEntity(e) witness [AMP, SEMICOLON]

  /** A row of the table: elen is |entity| and ulen is |text|. */
  datatype Row = Row(entity: Entity, text: seq<byte>)

  ghost predicate DistinctNames(table: seq<Row>) {
    forall i, j | 0 <= i < j < |table| :: table[i].entity != table[j].entity
  }

  /** The first row from k on whose entity the text begins with, or the end of the table. */
  function MatchFrom(table: seq<Row>, s: seq<byte>, k: nat): (r: nat)
    requires k <= |table|
    ensures k <= r <= |table|
    ensures forall i | k <= i < r :: !(table[i].entity <= s)
    ensures r < |table| ==> table[r].entity <= s
    decreases |table| - k
  {
    if k == |table| || table[k].entity <= s then k else MatchFrom(table, s, k + 1)
  }

  function Match(table: seq<Row>, s: seq<byte>): nat {
    MatchFrom(table, s, 0)
  }

  /** What the front of a text becomes, and how much of it that is: an entity of the table, or one byte. */
  datatype Piece = Piece(out: seq<byte>, used: nat)

  function Front(table: seq<Row>, s: seq<byte>): (p: Piece)
    requires s != []
    ensures 0 < p.used <= |s|
  {
    var k := if s[0] == AMP then Match(table, s) else |table|;
    if k == |table| then Piece([s[0]], 1) else Piece(table[k].text, |table[k].entity|)
  }

  /** Left to right, never looking again at what was decoded. */
  function Decode(table: seq<Row>, s: seq<byte>): seq<byte>
    decreases |s|
  {
    if s == [] then []
    else
      var p := Front(table, s);
      p.out + Decode(table, s[p.used..])
  }

  // ---- the table's order does not matter

  lemma PrefixFree(a: Row, b: Row)
    requires a.entity <= b.entity
    ensures a.entity == b.entity
  {
    assert b.entity[|a.entity| - 1] == SEMICOLON;
  }

  /** No text begins with two entities. */
  lemma OneMatch(table: seq<Row>, s: seq<byte>, k: nat)
    requires DistinctNames(table) && k < |table| && table[k].entity <= s
    ensures Match(table, s) == k
  {
    var r := Match(table, s);
    var (a, b) := if |table[r].entity| <= |table[k].entity| then (r, k) else (k, r);
    PrefixFree(table[a], table[b]);
  }

  /** Tables with the same rows decode alike. */
  lemma SameFront(t: seq<Row>, u: seq<Row>, s: seq<byte>)
    requires DistinctNames(t) && DistinctNames(u) && forall row :: row in t <==> row in u
    requires s != []
    ensures Front(t, s) == Front(u, s)
  {
    var k := Match(t, s);
    if k < |t| {
      assert t[k] in u;
      var j :| 0 <= j < |u| && u[j] == t[k];
      OneMatch(u, s, j);
    } else {
      forall j | 0 <= j < |u| ensures !(u[j].entity <= s) {
        assert u[j] in t;
      }
    }
  }

  lemma {:induction false} OrderDoesNotMatter(t: seq<Row>, u: seq<Row>, s: seq<byte>)
    requires DistinctNames(t) && DistinctNames(u) && forall row :: row in t <==> row in u
    ensures Decode(t, s) == Decode(u, s)
    decreases |s|
  {
    if s == [] {
    } else {
      SameFront(t, u, s);
      OrderDoesNotMatter(t, u, s[Front(t, s).used..]);
    }
  }

  // ---- what decoding is, without the search and without the recursion of Decode

  /** A front of the text and what it stands for. */
  datatype Cut = Cut(input: seq<byte>, output: seq<byte>)

  /** A whole entity with its text; or one byte, itself, where no entity begins. */
  ghost predicate IsCut(table: seq<Row>, s: seq<byte>, c: Cut) {
    && c.input <= s
    && ((exists k :: 0 <= k < |table| && table[k].entity == c.input && table[k].text == c.output)
        || (|c.input| == 1 && c.output == c.input && forall k | 0 <= k < |table| :: !(table[k].entity <= s)))
  }

  /** The text cut from its front to its end, and the outputs put together. */
  ghost predicate Splits(table: seq<Row>, s: seq<byte>, out: seq<byte>, cuts: seq<Cut>)
    decreases |cuts|
  {
    if cuts == [] then s == [] && out == []
    else
      && IsCut(table, s, cuts[0]) && cuts[0].output <= out
      && Splits(table, s[|cuts[0].input|..], out[|cuts[0].output|..], cuts[1..])
  }

  /** There is one way to cut the front of a text. */
  lemma CutIsFront(table: seq<Row>, s: seq<byte>, c: Cut)
    requires DistinctNames(table) && s != []
    ensures IsCut(table, s, c) <==> c == Cut(s[..Front(table, s).used], Front(table, s).out)
  {
    var m := Match(table, s);
    assert m < |table| ==> table[m].entity == s[..|table[m].entity|] && s[0] == AMP;
    if k :| 0 <= k < |table| && table[k].entity == c.input && c.input <= s {
      OneMatch(table, s, k);
    }
    if m == |table| && s[0] != AMP {
      assert forall k | 0 <= k < |table| :: !(table[k].entity <= s);
    }
  }

  lemma FirstCut(table: seq<Row>, s: seq<byte>, out: seq<byte>, cuts: seq<Cut>)
    requires DistinctNames(table) && cuts != [] && Splits(table, s, out, cuts)
    ensures s != [] && var p := Front(table, s);
            p.out <= out && out == p.out + out[|p.out|..] && Splits(table, s[p.used..], out[|p.out|..], cuts[1..])
  {
    assert s != [];
    CutIsFront(table, s, cuts[0]);
  }

  lemma {:induction false} SplitIsDecoded(table: seq<Row>, s: seq<byte>, out: seq<byte>, cuts: seq<Cut>)
    requires DistinctNames(table) && Splits(table, s, out, cuts)
    ensures out == Decode(table, s)
    decreases |cuts|
  {
    if cuts == [] {
    } else {
      FirstCut(table, s, out, cuts);
      var p := Front(table, s);
      SplitIsDecoded(table, s[p.used..], out[|p.out|..], cuts[1..]);
    }
  }

  lemma {:induction false} DecodedIsSplit(table: seq<Row>, s: seq<byte>) returns (cuts: seq<Cut>)
    requires DistinctNames(table)
    ensures Splits(table, s, Decode(table, s), cuts)
    decreases |s|
  {
    if s == [] {
      cuts := [];
    } else {
      var p := Front(table, s);
      var c := Cut(s[..p.used], p.out);
      CutIsFront(table, s, c);
      var rest := DecodedIsSplit(table, s[p.used..]);
      cuts := [c] + rest;
      assert cuts[1..] == rest && Decode(table, s)[|p.out|..] == Decode(table, s[p.used..]);
    }
  }

  ghost predicate DecodesTo(table: seq<Row>, s: seq<byte>, out: seq<byte>) {
    exists cuts :: Splits(table, s, out, cuts)
  }

  /** Decoding replaces every entity, from left to right and never looking again at
      what it has put there, and keeps every other byte; there is one such result. */
  lemma DecodeIffSplits(table: seq<Row>, s: seq<byte>, out: seq<byte>)
    requires DistinctNames(table)
    ensures DecodesTo(table, s, out) <==> out == Decode(table, s)
  {
    var cuts := DecodedIsSplit(table, s);
    assert DecodesTo(table, s, Decode(table, s));
    if DecodesTo(table, s, out) {
      var other :| Splits(table, s, out, other);
      SplitIsDecoded(table, s, out, other);
    }
  }

  // ---- a round trip

  const AMP_ENTITY: Entity := [38, 97, 109, 112, 59]

  function Escape(s: seq<byte>): seq<byte> {
    if s == [] then [] else (if s[0] == AMP then AMP_ENTITY else [s[0]]) + Escape(s[1..])
  }

  /** Escaping the ampersands of any text is undone by decoding. */
  lemma {:induction false} DecodeEscaped(table: seq<Row>, s: seq<byte>)
    requires DistinctNames(table) && Row(AMP_ENTITY, [AMP]) in table
    ensures Decode(table, Escape(s)) == s
  {
    if s == [] {
    } else {
      DecodeEscaped(table, s[1..]);
      if s[0] == AMP {
        var k :| 0 <= k < |table| && table[k] == Row(AMP_ENTITY, [AMP]);
        assert AMP_ENTITY <= Escape(s);
        OneMatch(table, Escape(s), k);
        assert Escape(s)[|AMP_ENTITY|..] == Escape(s[1..]);
      } else {
        assert Escape(s)[1..] == Escape(s[1..]);
      }
    }
  }

  // ---- room to decode in place

  /** With slack bytes to spare so far, the output never gets ahead of the input.
      Enough to decode a text in place; exact only over all texts (GrowsIff). */
  predicate Fits(table: seq<Row>, s: seq<byte>, slack: int)
    decreases |s|
  {
    slack >= 0 &&
    (s == [] ||
     var p := Front(table, s);
     Fits(table, s[p.used..], slack + p.used - |p.out|))
  }

  predicate NeverGrows(table: seq<Row>) {
    forall i | 0 <= i < |table| :: |table[i].text| <= |table[i].entity|
  }

  lemma {:induction false} FitsAlways(table: seq<Row>, s: seq<byte>, slack: nat)
    requires NeverGrows(table)
    ensures Fits(table, s, slack)
    decreases |s|
  {
    if s == [] {
    } else {
      var p := Front(table, s);
      FitsAlways(table, s[p.used..], slack + p.used - |p.out|);
    }
  }

  /** Every text can be decoded in place iff no row grows. */
  lemma AllFitIffNeverGrows(table: seq<Row>)
    requires DistinctNames(table)
    ensures (forall s :: Fits(table, s, 0)) <==> NeverGrows(table)
  {
    if NeverGrows(table) {
      forall s ensures Fits(table, s, 0) {
        FitsAlways(table, s, 0);
      }
    } else {
      var k :| 0 <= k < |table| && |table[k].text| > |table[k].entity|;
      OneMatch(table, table[k].entity, k);
      assert !Fits(table, table[k].entity, 0);
    }
  }

  lemma {:induction false} NeverLonger(table: seq<Row>, s: seq<byte>)
    requires NeverGrows(table)
    ensures |Decode(table, s)| <= |s|
    decreases |s|
  {
    if s == [] {
    } else {
      NeverLonger(table, s[Front(table, s).used..]);
    }
  }

  lemma DecodeEntity(table: seq<Row>, k: nat)
    requires DistinctNames(table) && k < |table|
    ensures Decode(table, table[k].entity) == table[k].text
  {
    var s := table[k].entity;
    OneMatch(table, s, k);
    assert Decode(table, s[|s|..]) == [];
  }

  /** No text is decoded to a longer one iff no row grows. A longer one has no
      place in the buffer: the length left to clear at the end is negative. */
  lemma GrowsIff(table: seq<Row>)
    requires DistinctNames(table)
    ensures (forall s :: |Decode(table, s)| <= |s|) <==> NeverGrows(table)
  {
    if NeverGrows(table) {
      forall s ensures |Decode(table, s)| <= |s| {
        NeverLonger(table, s);
      }
    } else {
      var k :| 0 <= k < |table| && |table[k].text| > |table[k].entity|;
      DecodeEntity(table, k);
      assert |Decode(table, table[k].entity)| > |table[k].entity|;
    }
  }

  /** The row of src/include/bx_html_entities.h:730: five bytes become six. */
  const NLT := Row([38, 110, 76, 116, 59], [0xE2, 0x89, 0xAA, 0xE2, 0x83, 0x92])

  /** Any table with that row, as the repository's has, decodes its entity to one
      byte more than there was. */
  lemma NltGrows(table: seq<Row>)
    requires DistinctNames(table) && NLT in table
    ensures |NLT.entity| - |Decode(table, NLT.entity)| == -1
    ensures !Fits(table, NLT.entity, 0)
  {
    var k :| 0 <= k < |table| && table[k] == NLT;
    DecodeEntity(table, k);
    OneMatch(table, NLT.entity, k);
  }

  // ---- the buffer

  /** The text of a buffer: what comes before its first NUL, within len. */
  ghost predicate IsText(buffer: seq<byte>, len: nat, n: nat) {
    && n <= len < |buffer| && buffer[len] == NUL
    && (n < len ==> buffer[n] == NUL)
    && forall i | 0 <= i < n :: buffer[i] != NUL
  }

  /** From a place of the buffer on, this text and its NUL. */
  ghost predicate Reads(buffer: array<byte>, at: nat, s: seq<byte>)
    reads buffer
  {
    && at + |s| < buffer.Length && buffer[at + |s|] == NUL
    && forall x | 0 <= x < |s| :: buffer[at + x] == s[x]
  }

  /** strncmp(entity, &buffer[at], elen) == 0. It stops at the first difference,
      at the latest at the NUL that ends the text. */
  method SameAt(buffer: array<byte>, at: nat, entity: Entity, ghost s: seq<byte>) returns (same: bool)
    requires Reads(buffer, at, s)
    ensures same <==> entity <= s
  {
    for i := 0 to |entity|
      invariant i <= |s| && entity[..i] == s[..i]
    {
      if buffer[at + i] != entity[i] {
        assert i < |s| ==> s[i] == buffer[at + i];
        return false;
      }
      assert i < |s| && s[i] == buffer[at + i];
    }
    return true;
  }

  /** The search through the table. */
  method FindRow(table: seq<Row>, buffer: array<byte>, at: nat, ghost s: seq<byte>) returns (k: nat)
    requires Reads(buffer, at, s)
    ensures k == Match(table, s)
  {
    k := 0;
    while k < |table|
      invariant k <= |table| && Match(table, s) == MatchFrom(table, s, k)
    {
      var same := SameAt(buffer, at, table[k].entity, s);
      if same {
        return;
      }
      k := k + 1;
    }
  }

  /** memset(&buffer[from], 0, count) */
  method Clear(buffer: array<byte>, from: nat, count: nat)
    requires from + count <= buffer.Length
    modifies buffer
    ensures forall i | 0 <= i < buffer.Length ::
      buffer[i] == if from <= i < from + count then NUL else old(buffer[i])
  {
    for i := from to from + count
      invariant forall k | 0 <= k < buffer.Length :: buffer[k] == if from <= k < i then NUL else old(buffer[k])
    {
      buffer[i] := NUL;
    }
  }

  /** memcpy(&buffer[to], text, ulen) */
  method Copy(buffer: array<byte>, to: nat, text: seq<byte>)
    requires to + |text| <= buffer.Length
    modifies buffer
    ensures forall i | 0 <= i < buffer.Length ::
      buffer[i] == if to <= i < to + |text| then text[i - to] else old(buffer[i])
  {
    for i := 0 to |text|
      invariant forall k | 0 <= k < buffer.Length :: buffer[k] == if to <= k < to + i then text[k - to] else old(buffer[k])
    {
      buffer[to + i] := text[i];
    }
  }

  /** A place in the text and the output for what is before it. */
  datatype Stop = Stop(i: nat, out: seq<byte>)

  /** From one stop to the next: one piece, with room for it. */
  ghost predicate Steps(table: seq<Row>, text: seq<byte>, a: Stop, b: Stop) {
    && a.i < |text|
    && var p := Front(table, text[a.i..]);
       b == Stop(a.i + p.used, a.out + p.out) && |a.out| <= a.i && b.i <= |text| && |b.out| <= b.i
  }

  lemma DecodeFront(table: seq<Row>, text: seq<byte>, i: nat)
    requires i < |text|
    ensures var p := Front(table, text[i..]); Decode(table, text[i..]) == p.out + Decode(table, text[i + p.used..])
  {
    var p := Front(table, text[i..]);
    assert text[i..][p.used..] == text[i + p.used..];
  }

  lemma FitsFront(table: seq<Row>, text: seq<byte>, i: nat, slack: int, read: nat, after: int)
    requires i < |text| && Fits(table, text[i..], slack)
    requires var p := Front(table, text[i..]); read == i + p.used && after == slack + p.used - |p.out|
    ensures slack >= 0 && after >= 0 && Fits(table, text[read..], after)
  {
    assert text[i..][read - i..] == text[read..];
  }

  lemma StopNext(table: seq<Row>, text: seq<byte>, a: Stop) returns (b: Stop)
    requires a.i < |text| && Fits(table, text[a.i..], a.i - |a.out|)
    ensures Steps(table, text, a, b) && Fits(table, text[b.i..], b.i - |b.out|)
  {
    var p := Front(table, text[a.i..]);
    var read, more := a.i + p.used, a.out + p.out;
    FitsFront(table, text, a.i, a.i - |a.out|, read, read - |more|);
    b := Stop(read, more);
  }

  lemma Carried(out: seq<byte>, piece: seq<byte>, rest: seq<byte>, whole: seq<byte>, more: seq<byte>)
    requires whole == piece + rest && more == out + piece
    ensures out + whole == more + rest
  {
    Regroup(out, piece, rest);
  }

  lemma StopDecodes(table: seq<Row>, text: seq<byte>, a: Stop, b: Stop)
    requires Steps(table, text, a, b)
    ensures a.out + Decode(table, text[a.i..]) == b.out + Decode(table, text[b.i..])
  {
    DecodeFront(table, text, a.i);
    Carried(a.out, Front(table, text[a.i..]).out, Decode(table, text[b.i..]), Decode(table, text[a.i..]), b.out);
  }

  ghost predicate IsTrace(table: seq<Row>, text: seq<byte>, trace: seq<Stop>) {
    && trace != [] && trace[|trace| - 1].i == |text|
    && forall m | 0 <= m < |trace| - 1 :: Steps(table, text, trace[m], trace[m + 1])
  }

  lemma TraceMore(table: seq<Row>, text: seq<byte>, a: Stop, rest: seq<Stop>)
    requires IsTrace(table, text, rest) && Steps(table, text, a, rest[0])
    ensures IsTrace(table, text, [a] + rest)
  {
    var trace := [a] + rest;
    assert forall m | 0 < m < |trace| :: trace[m] == rest[m - 1];
  }

  /** The stops decoding makes, down to the whole output. */
  lemma {:induction false} TraceFrom(table: seq<Row>, text: seq<byte>, a: Stop) returns (trace: seq<Stop>)
    requires a.i <= |text| && |a.out| <= a.i && Fits(table, text[a.i..], a.i - |a.out|)
    ensures IsTrace(table, text, trace) && trace[0] == a
    ensures trace[|trace| - 1].out == a.out + Decode(table, text[a.i..]) && |trace[|trace| - 1].out| <= |text|
    decreases |text| - a.i
  {
    if a.i == |text| {
      assert text[a.i..] == [];
      trace := [a];
    } else {
      var b := StopNext(table, text, a);
      StopDecodes(table, text, a, b);
      var rest := TraceFrom(table, text, b);
      TraceMore(table, text, a, rest);
      trace := [a] + rest;
    }
  }

  // ---- what happens to a text that does not fit

  /** A stop whose next piece reaches past all that was read. */
  ghost predicate Misfit(table: seq<Row>, text: seq<byte>, a: Stop) {
    && |a.out| <= a.i < |text|
    && var p := Front(table, text[a.i..]);
       a.i + p.used < |a.out + p.out|
  }

  /** Stops from the start of the text, each with room. */
  ghost predicate IsWay(table: seq<Row>, text: seq<byte>, a: Stop, trace: seq<Stop>) {
    && trace != [] && trace[0] == a
    && forall m | 0 <= m < |trace| - 1 :: Steps(table, text, trace[m], trace[m + 1])
  }

  lemma MisfitNext(table: seq<Row>, text: seq<byte>, a: Stop) returns (b: Stop)
    requires |a.out| <= a.i <= |text| && !Fits(table, text[a.i..], a.i - |a.out|) && !Misfit(table, text, a)
    ensures Steps(table, text, a, b) && !Fits(table, text[b.i..], b.i - |b.out|)
  {
    var p := Front(table, text[a.i..]);
    b := Stop(a.i + p.used, a.out + p.out);
    assert text[a.i..][p.used..] == text[b.i..];
  }

  lemma WayMore(table: seq<Row>, text: seq<byte>, a: Stop, b: Stop, rest: seq<Stop>)
    requires IsWay(table, text, b, rest) && Steps(table, text, a, b)
    ensures IsWay(table, text, a, [a] + rest) && ([a] + rest)[|rest|] == rest[|rest| - 1]
  {
    assert forall m | 0 < m < |[a] + rest| :: ([a] + rest)[m] == rest[m - 1];
  }

  lemma {:induction false} MisfitFrom(table: seq<Row>, text: seq<byte>, a: Stop) returns (trace: seq<Stop>)
    requires |a.out| <= a.i <= |text| && !Fits(table, text[a.i..], a.i - |a.out|)
    ensures IsWay(table, text, a, trace) && Misfit(table, text, trace[|trace| - 1])
    decreases |text| - a.i
  {
    if Misfit(table, text, a) {
      trace := [a];
    } else {
      var b := MisfitNext(table, text, a);
      var rest := MisfitFrom(table, text, b);
      WayMore(table, text, a, b, rest);
      trace := [a] + rest;
    }
  }

  lemma {:induction false} FitsAlong(table: seq<Row>, text: seq<byte>, a: Stop, trace: seq<Stop>)
    requires |a.out| <= a.i <= |text| && Fits(table, text[a.i..], a.i - |a.out|) && IsWay(table, text, a, trace)
    ensures !Misfit(table, text, trace[|trace| - 1])
    decreases |trace|
  {
    if |trace| == 1 {
      if Misfit(table, text, a) {
        var b := StopNext(table, text, a);
      }
    } else {
      assert Steps(table, text, trace[0], trace[1]);
      var b := StopNext(table, text, a);
      FitsAlong(table, text, b, trace[1..]);
    }
  }

  /** A text fits iff decoding it never comes, all right so far, to a piece that
      DecodeOne puts over a byte not read yet. */
  lemma FitsIffNoMisfit(table: seq<Row>, text: seq<byte>)
    ensures Fits(table, text, 0) <==>
      forall trace | IsWay(table, text, Stop(0, []), trace) :: !Misfit(table, text, trace[|trace| - 1])
  {
    assert text[0..] == text;
    if Fits(table, text, 0) {
      forall trace | IsWay(table, text, Stop(0, []), trace) ensures !Misfit(table, text, trace[|trace| - 1]) {
        FitsAlong(table, text, Stop(0, []), trace);
      }
    } else {
      var trace := MisfitFrom(table, text, Stop(0, []));
    }
  }

  /** The buffer while it is decoded: the output so far, and behind it what was not read yet. */
  ghost predicate Holds(buffer: array<byte>, was: seq<byte>, i: nat, out: seq<byte>)
    reads buffer
  {
    && i <= |was| == buffer.Length && |out| <= |was|
    && (forall x | 0 <= x < |out| :: buffer[x] == out[x])
    && forall x | i <= x < |was| && |out| <= x :: buffer[x] == was[x]
  }

  /** Puts a decoded text over the front of the entity it replaces. */
  method PutText(buffer: array<byte>, j: nat, row: Row)
    requires j + |row.entity| <= buffer.Length && j + |row.text| <= buffer.Length
    modifies buffer
    ensures forall x | 0 <= x < j :: buffer[x] == old(buffer[x])
    ensures forall x | j <= x < j + |row.text| :: buffer[x] == row.text[x - j]
    ensures forall x | j + |row.entity| <= x < buffer.Length && j + |row.text| <= x :: buffer[x] == old(buffer[x])
  {
    Clear(buffer, j, |row.entity|);
    Copy(buffer, j, row.text);
  }

  /** The row to use at a byte, or the end of the table. */
  method RowAt(table: seq<Row>, buffer: array<byte>, i: nat, ghost s: seq<byte>) returns (k: nat)
    requires Reads(buffer, i, s) && s != []
    ensures k <= |table|
    ensures Front(table, s) == if k == |table| then Piece([s[0]], 1) else Piece(table[k].text, |table[k].entity|)
  {
    k := |table|;
    assert s[0] == buffer[i + 0];
    if buffer[i] == AMP {
      k := FindRow(table, buffer, i, s);
    }
  }

  /** One turn of the loop: a plain byte, or a whole entity. If the output gets
      ahead of the input, it lands on bytes not read yet. */
  method DecodeOne(table: seq<Row>, buffer: array<byte>, i: nat, j: nat,
                   ghost was: seq<byte>, ghost rest: seq<byte>, ghost out: seq<byte>)
    returns (read: nat, written: nat)
    requires Reads(buffer, i, rest) && rest != [] && j == |out| <= i && Holds(buffer, was, i, out)
    requires j + |Front(table, rest).out| <= buffer.Length
    modifies buffer
    ensures read == i + Front(table, rest).used && written == j + |Front(table, rest).out|
    ensures Holds(buffer, was, read, out + Front(table, rest).out)
    ensures forall x | read <= x < written :: buffer[x] == (out + Front(table, rest).out)[x]
  {
    var k := RowAt(table, buffer, i, rest);
    assert rest[0] == buffer[i + 0];
    if k == |table| {
      buffer[j] := buffer[i];
      return i + 1, j + 1;
    }
    PutText(buffer, j, table[k]);
    return i + |table[k].entity|, j + |table[k].text|;
  }

  /** The loop's guard finds the end of the text, which is the end of the trace. */
  lemma GuardIsEnd(table: seq<Row>, buffer: array<byte>, was: seq<byte>, len: nat, n: nat, trace: seq<Stop>, m: nat)
    requires IsText(was, len, n) && IsTrace(table, was[..n], trace) && m < |trace|
    requires |trace[m].out| <= trace[m].i <= n && Holds(buffer, was, trace[m].i, trace[m].out)
    ensures trace[m].i < len && buffer[trace[m].i] != NUL <==> m < |trace| - 1
  {
    assert m < |trace| - 1 ==> Steps(table, was[..n], trace[m], trace[m + 1]);
  }

  lemma StepReads(table: seq<Row>, buffer: array<byte>, was: seq<byte>, n: nat, a: Stop, b: Stop) returns (rest: seq<byte>)
    requires n < |was| && was[n] == NUL && Steps(table, was[..n], a, b) && Holds(buffer, was, a.i, a.out)
    ensures Reads(buffer, a.i, rest) && rest != [] && Front(table, rest) == Front(table, was[..n][a.i..])
  {
    rest := was[..n][a.i..];
  }

  /** The loop: what it leaves is the decoded text, then the bytes it did not need. */
  method DecodeAll(table: seq<Row>, buffer: array<byte>, len: nat, ghost n: nat) returns (written: nat, ghost out: seq<byte>)
    requires IsText(buffer[..], len, n) && Fits(table, buffer[..n], 0)
    modifies buffer
    ensures out == Decode(table, old(buffer[..n])) && written == |out| <= n
    ensures Holds(buffer, old(buffer[..]), n, out)
  {
    ghost var was := buffer[..];
    assert was[..n] == buffer[..n];
    assert was[..n][0..] == was[..n];
    ghost var trace := TraceFrom(table, was[..n], Stop(0, []));
    var i: nat := 0;
    written := 0;
    ghost var m := 0;
    GuardIsEnd(table, buffer, was, len, n, trace, m);
    while i < len && buffer[i] != NUL
      invariant m < |trace| && i == trace[m].i <= n && written == |trace[m].out| <= i
      invariant Holds(buffer, was, trace[m].i, trace[m].out)
      invariant i < len && buffer[i] != NUL <==> m < |trace| - 1
      decreases n - i
    {
      ghost var a, b := trace[m], trace[m + 1];
      assert Steps(table, was[..n], a, b);
      ghost var rest := StepReads(table, buffer, was, n, a, b);
      i, written := DecodeOne(table, buffer, i, written, was, rest, a.out);
      m := m + 1;
      GuardIsEnd(table, buffer, was, len, n, trace, m);
    }
    out := trace[m].out;
  }

  /** Clears what is left of the old text behind the new one. */
  method ClearRest(buffer: array<byte>, newLen: nat, len: nat, ghost out: seq<byte>)
    requires newLen == |out| <= len < buffer.Length && buffer[len] == NUL
    requires forall x | 0 <= x < newLen :: buffer[x] == out[x]
    modifies buffer
    ensures buffer[..newLen] == out
    ensures forall i | newLen <= i <= len :: buffer[i] == NUL
    ensures forall i | len < i < buffer.Length :: buffer[i] == old(buffer[i])
  {
    Clear(buffer, newLen, len - newLen);
  }

  /** Decodes in place. Nothing is written at or past a byte not yet read, the
      text never grows, and what follows it is cleared. */
  method Replace(table: seq<Row>, buffer: array<byte>, len: nat, ghost n: nat) returns (newLen: nat)
    requires IsText(buffer[..], len, n) && Fits(table, buffer[..n], 0)
    modifies buffer
    ensures newLen <= len && buffer[..newLen] == Decode(table, old(buffer[..n]))
    ensures forall i | newLen <= i <= len :: buffer[i] == NUL
    ensures forall i | len < i < buffer.Length :: buffer[i] == old(buffer[i])
  {
    if len == 0 {
      return 0;
    }
    ghost var out;
    newLen, out := DecodeAll(table, buffer, len, n);
    ClearRest(buffer, newLen, len, out);
  }
}
