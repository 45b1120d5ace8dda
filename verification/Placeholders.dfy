/** Named placeholders of SQL texts: the pass that counts them and the pass that
    replaces each :name by a question mark, in place (src/bx_database.c:165-211). */
module Placeholders {
  import opened Options

  predicate IsVariableChar(c: char) {
    '0' <= c <= '9' || 'a' <= c <= 'z' || 'A' <= c <= 'Z' || c == '_'
  }

  /** The alphabet of names, by ASCII code: digits, capitals, the underscore, small letters. */
  lemma NameAlphabet(c: char)
    ensures IsVariableChar(c) <==>
      var n := c as int; 48 <= n <= 57 || 65 <= n <= 90 || n == 95 || 97 <= n <= 122
  {
  }

  predicate StartsName(s: string, i: nat) {
    i + 1 < |s| && s[i] == ':' && IsVariableChar(s[i + 1])
  }

  /** Where the run of name characters from k on ends. */
  function NameEnd(s: string, k: nat): (end: nat)
    requires k <= |s|
    ensures k <= end <= |s| && (end < |s| ==> !IsVariableChar(s[end]))
    ensures forall i | k <= i < end :: IsVariableChar(s[i])
    decreases |s| - k
  {
    if k == |s| || !IsVariableChar(s[k]) then k else NameEnd(s, k + 1)
  }

  /** Every maximal :name becomes one question mark. */
  function Rewritten(s: string): string
    decreases |s|
  {
    if s == "" then ""
    else if StartsName(s, 0) then "?" + Rewritten(s[NameEnd(s, 1)..])
    else [s[0]] + Rewritten(s[1..])
  }

  /** The names, with their colons, in order. */
  function Names(s: string): seq<string>
    decreases |s|
  {
    if s == "" then []
    else if StartsName(s, 0) then [s[..NameEnd(s, 1)]] + Names(s[NameEnd(s, 1)..])
    else Names(s[1..])
  }

  /** The k-th question mark replaced by the k-th name. */
  function Expanded(t: string, names: seq<string>): string {
    if t == "" then ""
    else if t[0] == '?' && names != [] then names[0] + Expanded(t[1..], names[1..])
    else [t[0]] + Expanded(t[1..], names)
  }

  // ---- what expanding restores

  /** A question mark of the text's own stands before a placeholder. */
  ghost predicate Mixed(s: string) {
    exists i, j :: 0 <= i < j < |s| && s[i] == '?' && StartsName(s, j)
  }

  lemma {:induction false} NamesIffStarts(s: string)
    ensures Names(s) != [] <==> exists j :: 0 <= j < |s| && StartsName(s, j)
    decreases |s|
  {
    if s == "" || StartsName(s, 0) {
    } else {
      NamesIffStarts(s[1..]);
      if j :| 0 <= j < |s| && StartsName(s, j) {
        assert StartsName(s[1..], j - 1);
      }
      if j :| 0 <= j < |s[1..]| && StartsName(s[1..], j) {
        assert StartsName(s, j + 1);
      }
    }
  }

  /** Dropping a beginning without question marks, up to a point no name straddles. */
  lemma MixedRest(s: string, k: nat)
    requires k <= |s| && forall i | 0 <= i < k :: s[i] != '?'
    ensures Mixed(s) <==> Mixed(s[k..])
  {
    if i, j :| 0 <= i < j < |s| && s[i] == '?' && StartsName(s, j) {
      assert s[k..][i - k] == '?' && StartsName(s[k..], j - k);
    }
    if i, j :| 0 <= i < j < |s[k..]| && s[k..][i] == '?' && StartsName(s[k..], j) {
      assert s[i + k] == '?' && StartsName(s, j + k);
    }
  }

  lemma {:induction false} ExpandedNothing(t: string)
    ensures Expanded(t, []) == t
  {
    if t == "" {
    } else {
      ExpandedNothing(t[1..]);
    }
  }

  lemma {:induction false} NothingToRewrite(s: string)
    requires Names(s) == []
    ensures Rewritten(s) == s
    decreases |s|
  {
    if s == "" {
    } else {
      NothingToRewrite(s[1..]);
    }
  }

  lemma RestoresAtName(s: string, k: nat)
    requires StartsName(s, 0) && k == NameEnd(s, 1)
    requires Expanded(Rewritten(s[k..]), Names(s[k..])) == s[k..] <==> !Mixed(s[k..])
    ensures Expanded(Rewritten(s), Names(s)) == s <==> !Mixed(s)
  {
    MixedRest(s, k);
    assert s == s[..k] + s[k..];
    assert Rewritten(s)[1..] == Rewritten(s[k..]) && Names(s)[1..] == Names(s[k..]);
  }

  lemma RestoresAtMark(s: string)
    requires s != "" && s[0] == '?'
    ensures Expanded(Rewritten(s), Names(s)) == s <==> !Mixed(s)
  {
    NamesIffStarts(s);
    if Names(s) == [] {
      ExpandedNothing(Rewritten(s));
      NothingToRewrite(s);
    } else {
      NamesStart(s);
      assert Names(s)[0][0] == ':';
      var j :| 0 <= j < |s| && StartsName(s, j);
    }
  }

  lemma RestoresAtChar(s: string)
    requires s != "" && s[0] != '?' && !StartsName(s, 0)
    requires Expanded(Rewritten(s[1..]), Names(s[1..])) == s[1..] <==> !Mixed(s[1..])
    ensures Expanded(Rewritten(s), Names(s)) == s <==> !Mixed(s)
  {
    MixedRest(s, 1);
    assert Rewritten(s)[1..] == Rewritten(s[1..]);
  }

  /** Expanding the names restores the text exactly when none of its own question
      marks stands before a placeholder: the texts whose k-th mark is the k-th name. */
  lemma {:induction false} ExpandedRestoresIffNotMixed(s: string)
    ensures Expanded(Rewritten(s), Names(s)) == s <==> !Mixed(s)
    decreases |s|
  {
    if s == "" {
    } else if StartsName(s, 0) {
      ExpandedRestoresIffNotMixed(s[NameEnd(s, 1)..]);
      RestoresAtName(s, NameEnd(s, 1));
    } else if s[0] == '?' {
      RestoresAtMark(s);
    } else {
      ExpandedRestoresIffNotMixed(s[1..]);
      RestoresAtChar(s);
    }
  }

  /** Every name recorded is a colon and at least one name character. */
  lemma {:induction false} NamesStart(s: string)
    ensures forall k | 0 <= k < |Names(s)| ::
      |Names(s)[k]| > 1 && Names(s)[k][0] == ':' && forall i | 1 <= i < |Names(s)[k]| :: IsVariableChar(Names(s)[k][i])
    decreases |s|
  {
    if s == "" {
    } else {
      if StartsName(s, 0) {
        NamesStart(s[NameEnd(s, 1)..]);
      } else {
        NamesStart(s[1..]);
      }
    }
  }

  // ---- the counting pass

  function CountStarts(s: string, k: nat): nat
    requires k <= |s|
  {
    if k == 0 then 0 else CountStarts(s, k - 1) + (if StartsName(s, k - 1) then 1 else 0)
  }

  lemma {:induction false} CountShift(s: string, j: nat, k: nat)
    requires j <= k <= |s|
    ensures CountStarts(s, k) == CountStarts(s, j) + CountStarts(s[j..], k - j)
  {
    if j == k {
    } else {
      CountShift(s, j, k - 1);
    }
  }

  lemma {:induction false} CountNone(s: string, k: nat)
    requires k <= |s| && forall i | 0 <= i < k :: s[i] != ':'
    ensures CountStarts(s, k) == 0
  {
    if k == 0 {
    } else {
      CountNone(s, k - 1);
    }
  }

  lemma {:induction false} NamesCounted(s: string)
    ensures |Names(s)| == CountStarts(s, |s|)
    decreases |s|
  {
    if s == "" {
    } else {
      var k := if StartsName(s, 0) then NameEnd(s, 1) else 1;
      NamesCounted(s[k..]);
      CountShift(s, k, |s|);
      CountShift(s, 1, k);
      CountNone(s[1..], k - 1);
    }
  }

  /** The counting pass, with the two bits of its state. */
  method CountParameters(query: array<char>) returns (count: nat)
    ensures count == |Names(query[..])|
  {
    var colon, varName := false, false;
    count := 0;
    for i := 0 to query.Length
      invariant !varName && (colon <==> i > 0 && query[i - 1] == ':')
      invariant count == if i == 0 then 0 else CountStarts(query[..], i - 1)
    {
      var c := query[i];
      if colon && IsVariableChar(c) {
        varName := true;
      }
      if varName && IsVariableChar(c) {
        count, colon, varName := count + 1, false, false;
      }
      if colon && !IsVariableChar(c) {
        colon, varName := false, false;
      }
      if c == ':' {
        colon := true;
      }
    }
    NamesCounted(query[..]);
  }

  // ---- the rewriting pass

  datatype Parameter<V> = Parameter(name: string, value: Option<V>)

  function NamesOf<V>(parameters: seq<Parameter<V>>): seq<string> {
    seq(|parameters|, i requires 0 <= i < |parameters| => parameters[i].name)
  }

  /** How far rewriting has come: i characters read, j written, count names kept. */
  ghost predicate Rewriting<V>(was: string, now: string, parameters: seq<Parameter<V>>, i: nat, j: nat, count: nat) {
    && j <= i <= |was| == |now| && count <= |parameters| == |Names(was)|
    && (forall k | i <= k < |was| :: now[k] == was[k])
    && now[..j] + Rewritten(was[i..]) == Rewritten(was)
    && NamesOf(parameters[..count]) + Names(was[i..]) == Names(was)
    && forall k | 0 <= k < |parameters| :: parameters[k].value == None
  }

  lemma RewritingStarts<V>(was: string, parameters: seq<Parameter<V>>)
    requires |parameters| == |Names(was)| && forall k | 0 <= k < |parameters| :: parameters[k].value == None
    ensures Rewriting(was, was, parameters, 0, 0, 0)
  {
    assert was[0..] == was;
  }

  lemma RewritingEnds<V>(was: string, now: string, parameters: seq<Parameter<V>>, j: nat, count: nat)
    requires Rewriting(was, now, parameters, |was|, j, count)
    ensures now[..j] == Rewritten(was) && NamesOf(parameters) == Names(was)
  {
    assert was[|was|..] == "";
    assert parameters[..count] == parameters;
  }

  lemma CharKept<V>(was: string, now: string, after: string, parameters: seq<Parameter<V>>, i: nat, j: nat, count: nat)
    requires Rewriting(was, now, parameters, i, j, count) && i < |was| && !StartsName(was, i)
    requires after == now[j := was[i]]
    ensures Rewriting(was, after, parameters, i + 1, j + 1, count)
  {
    assert was[i..][1..] == was[i + 1..];
    assert after[..j + 1] == now[..j] + [was[i]];
    assert now[..j] + ([was[i]] + Rewritten(was[i + 1..])) == after[..j + 1] + Rewritten(was[i + 1..]);
  }

  lemma {:induction false} NameEndShift(s: string, i: nat, k: nat)
    requires i <= k <= |s|
    ensures NameEnd(s[i..], k - i) == NameEnd(s, k) - i
    decreases |s| - k
  {
    if k == |s| || !IsVariableChar(s[k]) {
    } else {
      NameEndShift(s, i, k + 1);
    }
  }

  lemma NameSplit(s: string, i: nat)
    requires StartsName(s, i)
    ensures var k := NameEnd(s, i + 1);
            Rewritten(s[i..]) == "?" + Rewritten(s[k..]) && Names(s[i..]) == [s[i..k]] + Names(s[k..])
  {
    var k := NameEnd(s, i + 1);
    NameEndShift(s, i, i + 1);
    assert s[i..][k - i..] == s[k..] && s[i..][..k - i] == s[i..k];
  }

  lemma NameKept<V>(parameters: seq<Parameter<V>>, count: nat, name: string, rest: seq<string>, all: seq<string>)
    requires count < |parameters| && NamesOf(parameters[..count]) + ([name] + rest) == all
    ensures NamesOf(parameters[count := Parameter(name, None)][..count + 1]) + rest == all
  {
    var more := parameters[count := Parameter(name, None)];
    assert NamesOf(more[..count + 1]) == NamesOf(parameters[..count]) + [name];
  }

  lemma MarkPut(now: string, j: nat, rest: string, all: string)
    requires j < |now| && now[..j] + ("?" + rest) == all
    ensures now[j := '?'][..j + 1] + rest == all
  {
    assert now[j := '?'][..j + 1] == now[..j] + "?";
  }

  lemma NameTaken<V>(was: string, now: string, parameters: seq<Parameter<V>>, i: nat, j: nat, count: nat)
    requires Rewriting(was, now, parameters, i, j, count) && StartsName(was, i) && count < |parameters|
    ensures var k := NameEnd(was, i + 1);
            Rewriting(was, now[j := '?'], parameters[count := Parameter(was[i..k], None)], k, j + 1, count + 1)
  {
    var k := NameEnd(was, i + 1);
    NameSplit(was, i);
    NameKept(parameters, count, was[i..k], Names(was[k..]), Names(was));
    MarkPut(now, j, Rewritten(was[k..]), Rewritten(was));
  }

  lemma RoomForName<V>(was: string, now: string, parameters: seq<Parameter<V>>, i: nat, j: nat, count: nat)
    requires Rewriting(was, now, parameters, i, j, count) && StartsName(was, i)
    ensures count < |parameters|
  {
    assert StartsName(was[i..], 0);
  }

  /** Reads the placeholder that starts at i, if one does. */
  method ReadName(query: array<char>, i: nat, ghost was: string) returns (found: bool, k: nat, name: string)
    requires i < query.Length == |was| && forall x | i <= x < |was| :: query[x] == was[x]
    ensures found == StartsName(was, i)
    ensures found ==> k == NameEnd(was, i + 1) && name == was[i..k]
  {
    found := query[i] == ':' && i + 1 < query.Length && IsVariableChar(query[i + 1]);
    k, name := i + 1, "";
    if found {
      while k < query.Length && IsVariableChar(query[k])
        invariant i + 1 <= k <= query.Length && NameEnd(was, k) == NameEnd(was, i + 1)
      {
        k := k + 1;
      }
      name := query[i..k];
    }
  }

  /** One turn of the loop: a character, or a whole placeholder. */
  method RewriteOne<V>(query: array<char>, parameters: array<Parameter<V>>, i: nat, j: nat, count: nat, ghost was: string)
    returns (read: nat, kept: nat)
    requires i < query.Length && Rewriting(was, query[..], parameters[..], i, j, count)
    modifies query, parameters
    ensures i < read && Rewriting(was, query[..], parameters[..], read, j + 1, kept)
  {
    ghost var now, params := query[..], parameters[..];
    var found, k, name := ReadName(query, i, was);
    if found {
      RoomForName(was, now, params, i, j, count);
      NameTaken(was, now, params, i, j, count);
      parameters[count] := Parameter(name, None);
      query[j] := '?';
      assert query[..] == now[j := '?'];
      return k, count + 1;
    }
    query[j] := query[i];
    CharKept(was, now, query[..], params, i, j, count);
    return i + 1, count;
  }

  /** The rewriting pass. What is left behind the shorter text is not looked at again. */
  method Rewrite<V>(query: array<char>, parameters: array<Parameter<V>>) returns (length: nat)
    requires parameters.Length == |Names(query[..])|
    requires forall k | 0 <= k < parameters.Length :: parameters[k].value == None
    modifies query, parameters
    ensures length <= query.Length && query[..length] == Rewritten(old(query[..]))
    ensures length < query.Length ==> query[length] == '\0'
    ensures NamesOf(parameters[..]) == Names(old(query[..]))
    ensures forall k | 0 <= k < parameters.Length :: parameters[k].value == None
  {
    var i: nat, j: nat, count: nat := 0, 0, 0;
    ghost var was := query[..];
    RewritingStarts(was, parameters[..]);
    while i < query.Length
      invariant i <= query.Length && Rewriting(was, query[..], parameters[..], i, j, count)
    {
      i, count := RewriteOne(query, parameters, i, j, count, was);
      j := j + 1;
    }
    RewritingEnds(was, query[..], parameters[..], j, count);
    ghost var now := query[..];
    if j < query.Length {
      query[j] := '\0';
    }
    assert query[..j] == now[..j];
    length := j;
  }

  // ---- the terminating NUL

  lemma {:induction false} NulKept(s: string)
    ensures Rewritten(s + "\0") == Rewritten(s) + "\0" && Names(s + "\0") == Names(s)
    decreases |s|
  {
    var z := s + "\0";
    if s == "" {
      assert z[1..] == "";
    } else if StartsName(s, 0) {
      var k := NameEnd(s, 1);
      NameEndBefore(s, 1);
      assert z[k..] == s[k..] + "\0" && z[..k] == s[..k];
      NulKept(s[k..]);
    } else {
      assert z[1..] == s[1..] + "\0";
      NulKept(s[1..]);
    }
  }

  lemma {:induction false} NameEndBefore(s: string, k: nat)
    requires k <= |s|
    ensures NameEnd(s + "\0", k) == NameEnd(s, k)
    decreases |s| - k
  {
    if k == |s| || !IsVariableChar(s[k]) {
    } else {
      NameEndBefore(s, k + 1);
    }
  }

  /** The text a NUL ends. */
  ghost predicate IsCString(buffer: seq<char>, text: string) {
    |text| < |buffer| && buffer[..|text|] == text && buffer[|text|] == '\0'
  }

  // ---- queries and their parameters

  /** The first parameter of that name, or the end of the list (src/bx_database.c:216-225). */
  function FirstFrom<V>(parameters: seq<Parameter<V>>, name: string, k: nat): (r: nat)
    requires k <= |parameters|
    ensures k <= r <= |parameters| && (r < |parameters| ==> parameters[r].name == name)
    ensures forall i | k <= i < r :: parameters[i].name != name
    decreases |parameters| - k
  {
    if k == |parameters| || parameters[k].name == name then k else FirstFrom(parameters, name, k + 1)
  }

  function Bound<V>(parameters: seq<Parameter<V>>, name: string, value: V): seq<Parameter<V>> {
    var k := FirstFrom(parameters, name, 0);
    if k == |parameters| then parameters else parameters[k := Parameter(parameters[k].name, Some(value))]
  }

  class Query<V> {
    const query: array<char>
    const parameters: array<Parameter<V>>

    constructor (text: string)
      requires text != ""
      ensures fresh(query) && fresh(parameters)
      ensures IsCString(query[..], Rewritten(text))
      ensures NamesOf(parameters[..]) == Names(text)
      ensures forall k | 0 <= k < parameters.Length :: parameters[k].value == None
    {
      var buffer := new char[|text| + 1](i => if 0 <= i < |text| then text[i] else '\0');
      assert buffer[..] == text + "\0";
      var count := CountParameters(buffer);
      var params := new Parameter<V>[count](_ => Parameter("", None));
      var length := Rewrite(buffer, params);
      NulKept(text);
      assert buffer[..length] == Rewritten(text) + "\0";
      query, parameters := buffer, params;
      new;
      assert query[..|Rewritten(text)|] == query[..length][..|Rewritten(text)|];
      assert query[|Rewritten(text)|] == query[..length][|Rewritten(text)|];
    }

    method FindParam(name: string) returns (k: nat)
      ensures k == FirstFrom(parameters[..], name, 0)
    {
      k := 0;
      while k < parameters.Length && parameters[k].name != name
        invariant k <= parameters.Length && FirstFrom(parameters[..], name, 0) == FirstFrom(parameters[..], name, k)
      {
        k := k + 1;
      }
    }

    /** Gives a value to the first parameter of that name; false if there is none. */
    method AddParam(name: string, value: V) returns (found: bool)
      modifies parameters
      ensures found <==> name in NamesOf(old(parameters[..]))
      ensures parameters[..] == Bound(old(parameters[..]), name, value)
    {
      var k := FindParam(name);
      found := k < parameters.Length;
      if found {
        assert NamesOf(parameters[..])[k] == name;
        parameters[k] := Parameter(parameters[k].name, Some(value));
      }
    }
  }

  /** An empty text gives no query. */
  method NewQuery<V>(text: string) returns (query: Query?<V>)
    ensures query == null <==> text == ""
    ensures query != null ==>
      && fresh(query) && fresh(query.query) && fresh(query.parameters)
      && IsCString(query.query[..], Rewritten(text)) && NamesOf(query.parameters[..]) == Names(text)
      && forall k | 0 <= k < query.parameters.Length :: query.parameters[k].value == None
  {
    if text == "" {
      return null;
    }
    query := new Query(text);
  }
}
