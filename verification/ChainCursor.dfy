/** Where the sync chain stands, and how that is kept as text in the
    configuration table (src/bx_chain.c:25-145, src/bx_chain_db.c:25-38). */
module ChainCursor {
  import opened MachineIntegers
  import opened Options

  datatype Phase = ContactActive | ContactArchived | Project | InvoiceList | InvoiceMissed

  datatype Cursor = Cursor(phase: Phase, offset: cint)

  const START := Cursor(ContactActive, 0)
  const PHASES := [ContactActive, ContactArchived, Project, InvoiceList, InvoiceMissed]

  predicate IsNormal(c: Cursor) {
    0 <= c.offset <= INT_MAX && (c.phase == InvoiceMissed ==> c.offset == 0)
  }

  function Normalize(c: Cursor): (r: Cursor)
    ensures IsNormal(r) && r.phase == c.phase
    ensures IsNormal(c) ==> r == c
  {
    if c.offset < 0 || c.phase == InvoiceMissed then c.(offset := 0) else c
  }

  function PhaseName(p: Phase): string {
    match p
    case ContactActive => "contact-active"
    case ContactArchived => "contact-archived"
    case Project => "project"
    case InvoiceList => "invoice-list"
    case InvoiceMissed => "invoice-missed"
  }

  // ---- the C library calls, on strings without their terminator

  function IndexOf(s: string, c: char): (at: nat)
    ensures at <= |s|
    ensures at < |s| ==> s[at] == c
    ensures forall i | 0 <= i < at :: s[i] != c
  {
    if s == [] || s[0] == c then 0 else 1 + IndexOf(s[1..], c)
  }

  predicate IsDigit(c: char) { '0' <= c <= '9' }

  predicate IsSpace(c: char) { c == ' ' || '\t' <= c <= '\r' }

  function DigitRun(s: string): (n: nat)
    ensures n <= |s|
    ensures forall i | 0 <= i < n :: IsDigit(s[i])
    ensures n < |s| ==> !IsDigit(s[n])
  {
    if s == [] || !IsDigit(s[0]) then 0 else 1 + DigitRun(s[1..])
  }

  function SpaceRun(s: string): (n: nat)
    ensures n <= |s|
  {
    if s == [] || !IsSpace(s[0]) then 0 else 1 + SpaceRun(s[1..])
  }

  function DigitsValue(s: string): nat
    requires forall c | c in s :: IsDigit(c)
  {
    if s == [] then 0 else
      assert IsDigit(s[|s| - 1]);
      10 * DigitsValue(s[..|s| - 1]) + (s[|s| - 1] as int - '0' as int)
  }

  const LONG_MAX := 0x7FFF_FFFF_FFFF_FFFF

  /** strtol in base 10: the value, saturated to a long, and how much text it took (0: no number). */
  function StrToL(s: string): (r: (int, nat))
    ensures r.1 <= |s|
  {
    var spaces := SpaceRun(s);
    var signed := spaces < |s| && (s[spaces] == '-' || s[spaces] == '+');
    var start := if signed then spaces + 1 else spaces;
    var n := DigitRun(s[start..]);
    if n == 0 then (0, 0) else
      assert forall c | c in s[start..][..n] :: IsDigit(c);
      (Saturated(DigitsValue(s[start..][..n]), signed && s[spaces] == '-'), start + n)
  }

  /** A number with its sign, as near as a long can come to it. */
  function Saturated(magnitude: nat, negative: bool): int {
    var value: int := if negative then -(magnitude as int) else magnitude;
    if value > LONG_MAX then LONG_MAX else if value < -LONG_MAX - 1 then -LONG_MAX - 1 else value
  }

  /** printf's %d for a number that is not negative. */
  function Digits(n: nat): (s: string)
    ensures |s| > 0 && forall c | c in s :: IsDigit(c)
    ensures DigitsValue(s) == n
  {
    var digit := (n % 10 + '0' as int) as char;
    assert IsDigit(digit);
    if n < 10 then
      assert DigitsValue([]) == 0;
      [digit]
    else
      var s := Digits(n / 10) + [digit];
      assert s[..|s| - 1] == Digits(n / 10);
      s
  }

  function PrintInt(n: cint): string {
    if n < 0 then "-" + Digits(-(n as int)) else Digits(n)
  }

  // ---- what the parsers compute

  function PhaseNamed(name: string): Option<Phase> {
    if exists p :: PhaseName(p) == name then
      (var p :| PhaseName(p) == name; PhaseNameInjective(); Some(p))
    else None
  }

  lemma PhaseNameInjective()
    ensures forall p, q :: PhaseName(p) == PhaseName(q) ==> p == q
    ensures forall p :: 0 < |PhaseName(p)| <= 16 && ':' !in PhaseName(p)
  {
    assert forall p :: |PhaseName(p)| == match p
      case ContactActive => 14 case ContactArchived => 16 case Project => 7
      case InvoiceList => 12 case InvoiceMissed => 14;
    assert PhaseName(ContactActive)[0] != PhaseName(InvoiceMissed)[0];
  }

  function ParsedStored(text: Option<string>): (r: Option<Cursor>)
    ensures r.Some? ==> IsNormal(r.value)
  {
    if text.None? then None else
      var s := text.value;
      var colon := IndexOf(s, ':');
      if colon == |s| || colon == 0 then None else
        var phase := PhaseNamed(s[..colon]);
        var (offset, taken) := StrToL(s[colon + 1..]);
        if phase.None? || taken == 0 || taken < |s| - colon - 1 || offset < 0 || offset > INT_MAX then None
        else Some(Normalize(Cursor(phase.value, offset)))
  }

  function ParsedLegacy(step: Option<string>, offset: cint, pass: cint): Option<Cursor> {
    if step.None? then None else
      var o := if offset < 0 then 0 else offset;
      if step.value == "contact" then Some(Cursor(if pass == 1 then ContactArchived else ContactActive, o))
      else if step.value == "project" then Some(Cursor(Project, o))
      else if step.value == "invoice" then
        Some(if pass == 1 then Cursor(InvoiceMissed, 0) else Cursor(InvoiceList, o))
      else None
  }

  /** The stored text if it parses, else the three older rows, else the start. */
  function Decoded(text: Option<string>, step: Option<string>, offset: cint, pass: cint): (c: Cursor)
    ensures IsNormal(c)
  {
    match ParsedStored(text)
    case Some(c) => c
    case None => Normalize(match ParsedLegacy(step, offset, pass) case Some(c) => c case None => START)
  }

  function Printed(c: Cursor): string {
    PhaseName(c.phase) + ":" + PrintInt(c.offset)
  }

  // ---- properties

  lemma {:induction false} DigitRunAll(s: string)
    requires forall c | c in s :: IsDigit(c)
    ensures DigitRun(s) == |s|
  {
    if s == [] {
    } else {
      DigitRunAll(s[1..]);
    }
  }

  lemma {:induction false} IndexOfAfter(a: string, c: char, b: string)
    requires c !in a
    ensures IndexOf(a + [c] + b, c) == |a|
  {
    if a == [] {
    } else {
      assert (a + [c] + b)[1..] == a[1..] + [c] + b;
      IndexOfAfter(a[1..], c, b);
    }
  }

  /** strtol reads back what %d printed, all of it. */
  lemma StrToLReadsDigits(n: nat)
    requires n <= LONG_MAX
    ensures StrToL(Digits(n)) == (n, |Digits(n)|)
  {
    var digits := Digits(n);
    assert digits[0..] == digits;
    assert IsNumeral(digits, 0, 0, n);
    NumeralIsRead(digits, n);
  }

  /** White space up to k, a sign or none up to m, and at least one digit. */
  ghost predicate IsNumeral(s: string, k: nat, m: nat, n: int) {
    && k <= m < |s|
    && (forall i | 0 <= i < k :: IsSpace(s[i]))
    && (m == k || (m == k + 1 && (s[k] == '-' || s[k] == '+')))
    && (forall c | c in s[m..] :: IsDigit(c))
    && var value: int := DigitsValue(s[m..]);
       n == if m != k && s[k] == '-' then -value else value
  }

  ghost predicate Reads(s: string, n: int) {
    exists k: nat, m: nat :: IsNumeral(s, k, m, n)
  }

  /** A text says where the chain stands: a phase name, a colon, and a number
      from 0 to INT_MAX, which counts for nothing in the by-id phase. */
  ghost predicate Says(text: string, c: Cursor) {
    exists tail: string, n: cint ::
      text == PhaseName(c.phase) + ":" + tail && 0 <= n && Reads(tail, n) && c == Normalize(Cursor(c.phase, n))
  }

  lemma {:induction false} SpaceRunStops(s: string, n: nat)
    requires n <= |s| && (forall i | 0 <= i < n :: IsSpace(s[i])) && (n < |s| ==> !IsSpace(s[n]))
    ensures SpaceRun(s) == n
  {
    if n == 0 {
    } else {
      SpaceRunStops(s[1..], n - 1);
    }
  }

  lemma {:induction false} SpaceRunSpaces(s: string)
    ensures forall i | 0 <= i < SpaceRun(s) :: IsSpace(s[i])
  {
    if s == [] || !IsSpace(s[0]) {
    } else {
      SpaceRunSpaces(s[1..]);
    }
  }

  /** Where strtol finds the number of a numeral, and that it runs to the end. */
  lemma NumeralParts(s: string, k: nat, m: nat, n: int)
    requires IsNumeral(s, k, m, n)
    ensures SpaceRun(s) == k && DigitRun(s[m..]) == |s| - m && s[m..][..|s| - m] == s[m..]
    ensures m == if s[k] == '-' || s[k] == '+' then k + 1 else k
  {
    assert s[m..][0] in s[m..] && s[m..][0] == s[m];
    SpaceRunStops(s, k);
    DigitRunAll(s[m..]);
  }

  /** strtol takes a numeral whole and gives its value, if that fits a long. */
  lemma NumeralIsRead(s: string, n: int)
    requires Reads(s, n) && -LONG_MAX <= n <= LONG_MAX
    ensures StrToL(s) == (n, |s|) && s != ""
  {
    var k: nat, m: nat :| IsNumeral(s, k, m, n);
    NumeralParts(s, k, m, n);
  }

  /** Whatever strtol takes whole is a numeral. */
  lemma ReadIsNumeral(s: string)
    requires s != "" && StrToL(s).1 == |s| && -LONG_MAX <= StrToL(s).0 < LONG_MAX
    ensures Reads(s, StrToL(s).0)
  {
    var k := SpaceRun(s);
    var m := if k < |s| && (s[k] == '-' || s[k] == '+') then k + 1 else k;
    SpaceRunSpaces(s);
    assert s[m..][..DigitRun(s[m..])] == s[m..];
    assert IsNumeral(s, k, m, StrToL(s).0);
  }

  lemma SaidIsParsed(phase: Phase, tail: string, n: cint)
    requires 0 <= n && Reads(tail, n)
    ensures ParsedStored(Some(PhaseName(phase) + ":" + tail)) == Some(Normalize(Cursor(phase, n)))
  {
    var name := PhaseName(phase);
    var text := name + ":" + tail;
    PhaseNameInjective();
    IndexOfAfter(name, ':', tail);
    assert text == name + [':'] + tail && text[..|name|] == name && text[|name| + 1..] == tail;
    assert PhaseNamed(name) == Some(phase);
    NumeralIsRead(tail, n);
  }

  lemma CutAtColon(text: string, colon: nat)
    requires colon < |text| && text[colon] == ':'
    ensures text == text[..colon] + ":" + text[colon + 1..]
  {
  }

  lemma PhaseNamedIs(name: string)
    requires PhaseNamed(name).Some?
    ensures PhaseName(PhaseNamed(name).value) == name
  {
  }

  lemma ParsedIsSaid(text: string) returns (tail: string, n: cint)
    requires ParsedStored(Some(text)).Some?
    ensures var c := ParsedStored(Some(text)).value;
            text == PhaseName(c.phase) + ":" + tail && 0 <= n && Reads(tail, n) && c == Normalize(Cursor(c.phase, n))
  {
    var colon := IndexOf(text, ':');
    tail, n := text[colon + 1..], StrToL(text[colon + 1..]).0;
    CutAtColon(text, colon);
    PhaseNamedIs(text[..colon]);
    ReadIsNumeral(tail);
  }

  /** The parser accepts exactly the texts that say where the chain stands. */
  lemma ParsedIffSaid(text: string, c: Cursor)
    ensures ParsedStored(Some(text)) == Some(c) <==> Says(text, c)
  {
    if ParsedStored(Some(text)) == Some(c) {
      var tail, n := ParsedIsSaid(text);
      assert Says(text, c);
    }
    if Says(text, c) {
      var tail: string, n: cint :|
        text == PhaseName(c.phase) + ":" + tail && 0 <= n && Reads(tail, n) && c == Normalize(Cursor(c.phase, n));
      SaidIsParsed(c.phase, tail, n);
    }
  }

  /** The cursor a text says, if it says one. */
  ghost predicate IsSaid(text: Option<string>, r: Option<Cursor>) {
    forall c :: r == Some(c) <==> text.Some? && Says(text.value, c)
  }

  lemma ParsedIsSaidOne(text: Option<string>)
    ensures IsSaid(text, ParsedStored(text))
  {
    if text.Some? {
      forall c ensures ParsedStored(text) == Some(c) <==> Says(text.value, c) {
        ParsedIffSaid(text.value, c);
      }
    }
  }

  /** Saving a cursor and loading it gives it back, whatever the older rows hold. */
  lemma RoundTrip(c: Cursor, step: Option<string>, offset: cint, pass: cint)
    requires IsNormal(c)
    ensures Decoded(Some(Printed(c)), step, offset, pass) == c
  {
    var digits := Digits(c.offset);
    assert digits[0..] == digits;
    assert IsNumeral(digits, 0, 0, c.offset);
    SaidIsParsed(c.phase, digits, c.offset);
  }

  /** Two cursors with the same text are the same cursor. */
  lemma PrintedInjective(c: Cursor, d: Cursor)
    requires IsNormal(c) && IsNormal(d) && Printed(c) == Printed(d)
    ensures c == d
  {
    RoundTrip(c, None, 0, 0);
    RoundTrip(d, None, 0, 0);
  }

  /** The older rows matter exactly when the text does not parse. */
  lemma StoredTextWins(text: Option<string>, step: Option<string>, offset: cint, pass: cint)
    ensures ParsedStored(text).Some? <==>
      forall st, o, p :: Decoded(text, st, o, p) == Decoded(text, step, offset, pass)
  {
    if ParsedStored(text).None? {
      assert Decoded(text, Some("project"), 0, 0) == Cursor(Project, 0);
      assert Decoded(text, Some("contact"), 0, 0) == Cursor(ContactActive, 0);
    }
  }

  /** What the three older rows stand for when the text does not parse. */
  lemma OlderRowsMean(text: Option<string>, step: Option<string>, offset: cint, pass: cint)
    requires ParsedStored(text).None?
    ensures var c, o := Decoded(text, step, offset, pass), if offset < 0 then 0 else offset;
            && (step == Some("contact") ==> c == Cursor(if pass == 1 then ContactArchived else ContactActive, o))
            && (step == Some("project") ==> c == Cursor(Project, o))
            && (step == Some("invoice") ==> c == if pass == 1 then Cursor(InvoiceMissed, 0) else Cursor(InvoiceList, o))
            && (step !in {Some("contact"), Some("project"), Some("invoice")} ==> c == Cursor(ContactActive, 0))
  {
  }

  /** How the five phases are written: what stands before the colon. */
  lemma TextsMean(phase: Phase, n: cint, step: Option<string>, offset: cint, pass: cint)
    requires 0 <= n
    ensures var name := match phase
              case ContactActive => "contact-active" case ContactArchived => "contact-archived" case Project => "project"
              case InvoiceList => "invoice-list" case InvoiceMissed => "invoice-missed";
            Decoded(Some(name + ":" + Digits(n)), step, offset, pass) ==
              Cursor(phase, if phase == InvoiceMissed then 0 else n)
  {
    assert Digits(n)[0..] == Digits(n);
    assert IsNumeral(Digits(n), 0, 0, n);
    SaidIsParsed(phase, Digits(n), n);
  }

  /** 63 characters hold every cursor: the print buffer of 64 never truncates. */
  lemma PrintFits(c: Cursor)
    ensures |Printed(c)| < 64
  {
    PhaseNameInjective();
    if c.offset < 0 {
      DigitsLength(-(c.offset as int), 10, 10_000_000_000);
    } else {
      DigitsLength(c.offset, 10, 10_000_000_000);
    }
  }

  lemma {:induction false} DigitsLength(n: nat, k: nat, limit: nat)
    requires 0 < k && limit == Pow10(k) && n < limit
    ensures |Digits(n)| <= k
  {
    if n < 10 {
    } else {
      assert k > 1;
      DigitsLength(n / 10, k - 1, Pow10(k - 1));
    }
  }

  function Pow10(k: nat): nat {
    if k == 0 then 1 else 10 * Pow10(k - 1)
  }

  // ---- the parsers

  method ParsePhase(name: string) returns (phase: Option<Phase>)
    ensures phase == PhaseNamed(name)
  {
    PhaseNameInjective();
    for i := 0 to |PHASES|
      invariant forall k | 0 <= k < i :: PhaseName(PHASES[k]) != name
    {
      if PhaseName(PHASES[i]) == name {
        return Some(PHASES[i]);
      }
    }
    forall p: Phase ensures PhaseName(p) != name {
      assert p == PHASES[0] || p == PHASES[1] || p == PHASES[2] || p == PHASES[3] || p == PHASES[4];
    }
    return None;
  }

  method ParseText(text: string) returns (r: Option<Cursor>)
    ensures r == ParsedStored(Some(text))
  {
    var colon := IndexOf(text, ':');
    if colon == |text| || colon == 0 {
      return None;
    }
    var phase := ParsePhase(text[..colon]);
    if phase.None? {
      return None;
    }
    var (offset, taken) := StrToL(text[colon + 1..]);
    if taken == 0 || taken != |text[colon + 1..]| || offset < 0 || offset > INT_MAX {
      return None;
    }
    return Some(Normalize(Cursor(phase.value, offset)));
  }

  /** The stored text, if there is one and it says a cursor. */
  method ParseStored(text: Option<string>) returns (r: Option<Cursor>)
    ensures r == ParsedStored(text) && IsSaid(text, r)
  {
    ParsedIsSaidOne(text);
    if text.None? {
      return None;
    }
    r := ParseText(text.value);
  }

  method Decode(text: Option<string>, step: Option<string>, offset: cint, pass: cint) returns (c: Cursor)
    ensures c == Decoded(text, step, offset, pass)
  {
    c := START;
    var stored := ParseStored(text);
    if stored.Some? {
      return stored.value;
    }
    var legacy := ParsedLegacy(step, offset, pass);
    if legacy.Some? {
      c := legacy.value;
    }
    c := Normalize(c);
  }
}
