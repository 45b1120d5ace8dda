/** Saving one object: the statements bx_json_upsert generates and the values it
    binds to their placeholders (src/bx_upsert.c:163-270). */
module Upsert {
  import opened Options
  import opened Sequences
  import opened Joining
  import opened Placeholders

  const MAX_FIELDS := 48

  /** What can be bound: the i-th field of the object, or one of the row's own columns. */
  datatype Value = Slot(i: nat) | ParentId | Checksum | Now | NotDeleted

  predicate IsName(n: string) {
    n != "" && forall i | 0 <= i < |n| :: IsVariableChar(n[i])
  }

  /** Distinct field names that are SQL identifiers. */
  predicate AreFields(names: seq<string>) {
    && 0 < |names| <= MAX_FIELDS
    && (forall i | 0 <= i < |names| :: IsName(names[i]))
    && forall i, j | 0 <= i < j < |names| :: names[i] != names[j]
  }

  /** A column, the placeholder the text has for it and the value the column takes. */
  datatype Assign = Assign(column: string, mark: string, value: Value)

  function FieldAssigns(names: seq<string>, from: nat): seq<Assign>
    requires from <= |names|
  {
    seq(|names| - from, i requires 0 <= i < |names| - from => Assign(names[from + i], names[from + i], Slot(from + i)))
  }

  function ParentAssign(parent: Option<string>): seq<Assign> {
    match parent
    case None => []
    case Some(column) => [Assign(column, "_parent", ParentId)]
  }

  const SYSTEM := [
    Assign("_checksum", "_checksum", Checksum),
    Assign("_last_updated", "_last_updated", Now),
    Assign("_deleted", "_deleted", NotDeleted)]

  /** The row's own columns. */
  function OwnAssigns(parent: Option<string>): seq<Assign> {
    ParentAssign(parent) + SYSTEM
  }

  /** No field has the placeholder of one of the row's own columns. */
  predicate NoneReserved(names: seq<string>, parent: Option<string>) {
    forall i | 0 <= i < |names| ::
      && names[i] != "_checksum" && names[i] != "_last_updated" && names[i] != "_deleted"
      && (parent.Some? ==> names[i] != "_parent")
  }

  /** The columns of an INSERT. */
  function Inserted(names: seq<string>, parent: Option<string>): seq<Assign> {
    FieldAssigns(names, 0) + ParentAssign(parent) + SYSTEM
  }

  /** The columns an UPDATE sets. */
  function Updated(names: seq<string>): seq<Assign>
    requires names != []
  {
    FieldAssigns(names, 1) + SYSTEM
  }

  /** The columns that pick the row, in an UPDATE and in the SELECT before it. */
  function Key(names: seq<string>, parent: Option<string>): seq<Assign>
    requires names != []
  {
    [Assign(names[0], "id", Slot(0))] + ParentAssign(parent)
  }

  // ---- the texts

  /** What stands before a list's next item. */
  function Lead(before: string, separator: string, item: string): string {
    (if before == "" then "" else separator) + item
  }

  /** column = :mark, for each; or just :mark. */
  function MarkText(list: seq<Assign>, separator: string, assigning: bool): string {
    if list == [] then ""
    else
      var before, a := MarkText(list[..|list| - 1], separator, assigning), list[|list| - 1];
      before + (Lead(before, separator, if assigning then a.column + " = " else "") + (":" + a.mark))
  }

  function ColumnText(list: seq<Assign>): string {
    if list == [] then ""
    else
      var before := ColumnText(list[..|list| - 1]);
      before + Lead(before, ", ", list[|list| - 1].column)
  }

  function SelectText(table: string, names: seq<string>, parent: Option<string>): string
    requires names != []
  {
    "SELECT _checksum FROM " + table + " WHERE " + MarkText(Key(names, parent), " AND ", true)
  }

  function InsertText(table: string, names: seq<string>, parent: Option<string>): string {
    var list := Inserted(names, parent);
    "INSERT INTO " + table + " (" + ColumnText(list) + ") VALUES (" + MarkText(list, ", ", false) + ")"
  }

  function UpdateText(table: string, names: seq<string>, parent: Option<string>): string
    requires names != []
  {
    "UPDATE " + table + " SET " + MarkText(Updated(names), ", ", true) + " WHERE " + MarkText(Key(names, parent), " AND ", true)
  }

  // ---- the placeholders of the texts

  function Marks(list: seq<Assign>): seq<string> {
    seq(|list|, i requires 0 <= i < |list| => ":" + list[i].mark)
  }

  predicate AreAssigns(list: seq<Assign>) {
    forall i | 0 <= i < |list| :: IsName(list[i].column) && IsName(list[i].mark)
  }

  predicate NoColon(s: string) {
    forall i | 0 <= i < |s| :: s[i] != ':'
  }

  predicate EndsName(rest: string) {
    rest == "" || !IsVariableChar(rest[0])
  }

  lemma {:induction false} NamesPlain(s: string, rest: string)
    requires NoColon(s)
    ensures Names(s + rest) == Names(rest)
  {
    if s == "" {
      assert s + rest == rest;
    } else {
      assert (s + rest)[1..] == s[1..] + rest;
      NamesPlain(s[1..], rest);
    }
  }

  lemma {:induction false} NameEndOf(name: string, rest: string, k: nat)
    requires k <= |name| && EndsName(rest) && forall i | k <= i < |name| :: IsVariableChar(name[i])
    ensures NameEnd(name + rest, k) == |name|
    decreases |name| - k
  {
    if k == |name| {
    } else {
      NameEndOf(name, rest, k + 1);
    }
  }

  lemma NamesMark(mark: string, rest: string)
    requires IsName(mark) && EndsName(rest)
    ensures Names(":" + mark + rest) == [":" + mark] + Names(rest)
  {
    var s := ":" + mark + rest;
    NameEndOf(":" + mark, rest, 1);
    assert StartsName(s, 0);
    assert s[|mark| + 1..] == rest && s[..|mark| + 1] == ":" + mark;
  }

  lemma MarksMore(list: seq<Assign>)
    requires list != []
    ensures Marks(list) == Marks(list[..|list| - 1]) + [":" + list[|list| - 1].mark]
  {
  }

  lemma RegroupMark(before: string, lead: string, mark: string, rest: string)
    ensures before + (lead + mark) + rest == before + (lead + (mark + rest))
  {
  }

  lemma LeadAndMark(lead: string, mark: string, rest: string)
    requires NoColon(lead) && IsName(mark) && EndsName(rest)
    ensures Names(lead + (":" + mark + rest)) == [":" + mark] + Names(rest)
  {
    NamesPlain(lead, ":" + mark + rest);
    NamesMark(mark, rest);
  }

  function LeadOf(list: seq<Assign>, separator: string, assigning: bool): string
    requires list != []
  {
    Lead(MarkText(list[..|list| - 1], separator, assigning), separator,
         if assigning then list[|list| - 1].column + " = " else "")
  }

  lemma MarkTextSplit(list: seq<Assign>, separator: string, assigning: bool, rest: string)
    requires list != [] && AreAssigns(list) && NoColon(separator) && separator != "" && EndsName(separator)
    ensures var lead, a := LeadOf(list, separator, assigning), list[|list| - 1];
            && MarkText(list, separator, assigning) + rest ==
               MarkText(list[..|list| - 1], separator, assigning) + (lead + (":" + a.mark + rest))
            && NoColon(lead)
            && (|list| > 1 ==> EndsName(lead + (":" + a.mark + rest)))
  {
    var lead, a := LeadOf(list, separator, assigning), list[|list| - 1];
    RegroupMark(MarkText(list[..|list| - 1], separator, assigning), lead, ":" + a.mark, rest);
  }

  /** The last item's placeholder, and then those of the rest. */
  lemma LastMark(list: seq<Assign>, separator: string, assigning: bool, rest: string) returns (tail: string)
    requires list != [] && AreAssigns(list) && NoColon(separator) && separator != "" && EndsName(separator) && EndsName(rest)
    ensures MarkText(list, separator, assigning) + rest == MarkText(list[..|list| - 1], separator, assigning) + tail
    ensures Names(tail) == [":" + list[|list| - 1].mark] + Names(rest)
    ensures |list| > 1 ==> EndsName(tail)
  {
    var lead, a := LeadOf(list, separator, assigning), list[|list| - 1];
    tail := lead + (":" + a.mark + rest);
    MarkTextSplit(list, separator, assigning, rest);
    LeadAndMark(lead, a.mark, rest);
  }

  /** The placeholders of a list, in its order. */
  lemma {:induction false} MarkTextNames(list: seq<Assign>, separator: string, assigning: bool, rest: string)
    requires AreAssigns(list) && NoColon(separator) && separator != "" && EndsName(separator)
    requires list != [] ==> EndsName(rest)
    ensures Names(MarkText(list, separator, assigning) + rest) == Marks(list) + Names(rest)
  {
    if list == [] {
      assert "" + rest == rest;
    } else {
      var tail := LastMark(list, separator, assigning, rest);
      MarkTextNames(list[..|list| - 1], separator, assigning, tail);
      MarksMore(list);
      Regroup(Marks(list[..|list| - 1]), [":" + list[|list| - 1].mark], Names(rest));
    }
  }

  lemma {:induction false} ColumnTextPlain(list: seq<Assign>)
    requires AreAssigns(list)
    ensures NoColon(ColumnText(list))
  {
    if list == [] {
    } else {
      ColumnTextPlain(list[..|list| - 1]);
    }
  }

  predicate IsParent(parent: Option<string>) {
    parent.Some? ==> IsName(parent.value)
  }

  lemma SystemNames()
    ensures AreAssigns(SYSTEM) && IsName("id") && IsName("_parent")
  {
    assert forall i | 0 <= i < |"_last_updated"| :: IsVariableChar("_last_updated"[i]);
  }

  lemma ListsAreAssigns(names: seq<string>, parent: Option<string>)
    requires AreFields(names) && IsParent(parent)
    ensures AreAssigns(Inserted(names, parent)) && AreAssigns(Updated(names)) && AreAssigns(Key(names, parent))
  {
    SystemNames();
  }

  /** The placeholders of the SELECT are those of its key columns. */
  lemma SelectNames(table: string, names: seq<string>, parent: Option<string>)
    requires IsName(table) && AreFields(names) && IsParent(parent)
    ensures Names(SelectText(table, names, parent)) == Marks(Key(names, parent))
  {
    ListsAreAssigns(names, parent);
    var keys := MarkText(Key(names, parent), " AND ", true);
    var lead := "SELECT _checksum FROM " + table + " WHERE ";
    MarkTextNames(Key(names, parent), " AND ", true, "");
    assert keys + "" == keys;
    NamesPlain(lead, keys);
  }

  lemma InsertNames(table: string, names: seq<string>, parent: Option<string>)
    requires IsName(table) && AreFields(names) && IsParent(parent)
    ensures Names(InsertText(table, names, parent)) == Marks(Inserted(names, parent))
  {
    ListsAreAssigns(names, parent);
    var list := Inserted(names, parent);
    var lead := "INSERT INTO " + table + " (" + ColumnText(list) + ") VALUES (";
    ColumnTextPlain(list);
    NamesPlain(lead, MarkText(list, ", ", false) + ")");
    MarkTextNames(list, ", ", false, ")");
    NamesPlain(")", "");
    assert InsertText(table, names, parent) == lead + (MarkText(list, ", ", false) + ")");
  }

  lemma WhereNames(names: seq<string>, parent: Option<string>)
    requires AreFields(names) && IsParent(parent)
    ensures Names(" WHERE " + MarkText(Key(names, parent), " AND ", true)) == Marks(Key(names, parent))
  {
    ListsAreAssigns(names, parent);
    var keys := MarkText(Key(names, parent), " AND ", true);
    NamesPlain(" WHERE ", keys);
    MarkTextNames(Key(names, parent), " AND ", true, "");
    assert keys + "" == keys;
  }

  lemma LeadAndList(lead: string, list: seq<Assign>, separator: string, assigning: bool, tail: string)
    requires NoColon(lead) && AreAssigns(list) && NoColon(separator) && separator != "" && EndsName(separator)
    requires EndsName(tail)
    ensures Names(lead + (MarkText(list, separator, assigning) + tail)) == Marks(list) + Names(tail)
  {
    NamesPlain(lead, MarkText(list, separator, assigning) + tail);
    MarkTextNames(list, separator, assigning, tail);
  }

  lemma FourParts(a: string, b: string, c: string, d: string)
    ensures a + b + c + d == a + (b + (c + d))
  {
  }

  lemma UpdateNames(table: string, names: seq<string>, parent: Option<string>)
    requires IsName(table) && AreFields(names) && IsParent(parent)
    ensures Names(UpdateText(table, names, parent)) == Marks(Updated(names) + Key(names, parent))
  {
    ListsAreAssigns(names, parent);
    var keys := MarkText(Key(names, parent), " AND ", true);
    FourParts("UPDATE " + table + " SET ", MarkText(Updated(names), ", ", true), " WHERE ", keys);
    LeadAndList("UPDATE " + table + " SET ", Updated(names), ", ", true, " WHERE " + keys);
    WhereNames(names, parent);
    assert Marks(Updated(names) + Key(names, parent)) == Marks(Updated(names)) + Marks(Key(names, parent));
  }

  // ---- the texts, read without the functions that write them

  /** The columns of an INSERT, and the values they take. */
  function InsertColumns(names: seq<string>, parent: Option<string>): seq<string> {
    names + (if parent.Some? then [parent.value] else []) + ["_checksum", "_last_updated", "_deleted"]
  }

  function InsertValues(names: seq<string>, parent: Option<string>): seq<Value> {
    seq(|names|, (i: nat) => Slot(i)) + (if parent.Some? then [ParentId] else []) + [Checksum, Now, NotDeleted]
  }

  /** The columns an UPDATE sets, and the values they take. */
  function SetColumns(names: seq<string>): seq<string>
    requires names != []
  {
    names[1..] + ["_checksum", "_last_updated", "_deleted"]
  }

  function SetValues(names: seq<string>): seq<Value>
    requires names != []
  {
    seq(|names| - 1, (i: nat) => Slot(i + 1)) + [Checksum, Now, NotDeleted]
  }

  /** The columns that pick a row, and the values they must have. */
  function KeyColumns(names: seq<string>, parent: Option<string>): seq<string>
    requires names != []
  {
    [names[0]] + if parent.Some? then [parent.value] else []
  }

  function KeyValues(parent: Option<string>): seq<Value> {
    [Slot(0)] + if parent.Some? then [ParentId] else []
  }

  function Assigned(columns: seq<string>): seq<string> {
    seq(|columns|, i requires 0 <= i < |columns| => columns[i] + " = ?")
  }

  /** An INSERT of these columns, with a question mark for each. */
  ghost predicate IsInsert(sql: string, table: string, columns: seq<string>) {
    exists cols: string, marks: string ::
      && sql == "INSERT INTO " + table + " (" + cols + ") VALUES (" + marks + ")"
      && Split(cols, ", ") == columns && Split(marks, ", ") == seq(|columns|, i => "?")
  }

  /** An UPDATE that sets these columns where those are as given, with a question mark for each. */
  ghost predicate IsUpdate(sql: string, table: string, columns: seq<string>, key: seq<string>) {
    exists sets: string, keys: string ::
      && sql == "UPDATE " + table + " SET " + sets + " WHERE " + keys
      && Split(sets, ", ") == Assigned(columns) && Split(keys, " AND ") == Assigned(key)
  }

  ghost predicate IsSelect(sql: string, table: string, key: seq<string>) {
    exists keys: string ::
      sql == "SELECT _checksum FROM " + table + " WHERE " + keys && Split(keys, " AND ") == Assigned(key)
  }

  function Columns(list: seq<Assign>): seq<string> {
    seq(|list|, i requires 0 <= i < |list| => list[i].column)
  }

  function Values(list: seq<Assign>): seq<Value> {
    seq(|list|, i requires 0 <= i < |list| => list[i].value)
  }

  lemma InsertedIs(names: seq<string>, parent: Option<string>)
    ensures Columns(Inserted(names, parent)) == InsertColumns(names, parent)
    ensures Values(Inserted(names, parent)) == InsertValues(names, parent)
  {
  }

  lemma UpdatedIs(names: seq<string>, parent: Option<string>)
    requires names != []
    ensures Columns(Updated(names)) == SetColumns(names) && Values(Updated(names)) == SetValues(names)
    ensures Columns(Key(names, parent)) == KeyColumns(names, parent) && Values(Key(names, parent)) == KeyValues(parent)
    ensures Values(Updated(names) + Key(names, parent)) == SetValues(names) + KeyValues(parent)
  {
  }

  /** What an item of a list becomes when its placeholder is rewritten. */
  function Marked(list: seq<Assign>, assigning: bool): seq<string> {
    if assigning then Assigned(Columns(list)) else seq(|list|, i => "?")
  }

  lemma MarkedMore(list: seq<Assign>, assigning: bool)
    requires list != []
    ensures var a := list[|list| - 1];
            Marked(list, assigning) == Marked(list[..|list| - 1], assigning) + [if assigning then a.column + " = ?" else "?"]
  {
  }

  lemma {:induction false} RewrittenPlain(s: string, rest: string)
    requires NoColon(s)
    ensures Rewritten(s + rest) == s + Rewritten(rest)
  {
    if s == "" {
      assert s + rest == rest;
    } else {
      assert (s + rest)[1..] == s[1..] + rest;
      RewrittenPlain(s[1..], rest);
    }
  }

  lemma RewrittenMark(mark: string, rest: string)
    requires IsName(mark) && EndsName(rest)
    ensures Rewritten(":" + mark + rest) == "?" + Rewritten(rest)
  {
    var s := ":" + mark + rest;
    NameEndOf(":" + mark, rest, 1);
    assert StartsName(s, 0);
    assert s[|mark| + 1..] == rest;
  }

  /** The last item of a list and what follows it, rewritten. */
  lemma LastRewritten(list: seq<Assign>, separator: string, assigning: bool, rest: string) returns (tail: string)
    requires list != [] && AreAssigns(list) && NoColon(separator) && separator != "" && EndsName(separator) && EndsName(rest)
    ensures MarkText(list, separator, assigning) + rest == MarkText(list[..|list| - 1], separator, assigning) + tail
    ensures Rewritten(tail) == LeadOf(list, separator, assigning) + ("?" + Rewritten(rest))
    ensures |list| > 1 ==> EndsName(tail)
  {
    var lead, a := LeadOf(list, separator, assigning), list[|list| - 1];
    tail := lead + (":" + a.mark + rest);
    MarkTextSplit(list, separator, assigning, rest);
    RewrittenPlain(lead, ":" + a.mark + rest);
    RewrittenMark(a.mark, rest);
  }

  lemma JoinMore(items: seq<string>, more: string, sep: string)
    ensures Join(items + [more], sep) == if items == [] then more else Join(items, sep) + sep + more
  {
    assert (items + [more])[..|items|] == items;
  }

  lemma LeadIs(list: seq<Assign>, separator: string, assigning: bool)
    requires list != []
    ensures MarkText(list[..|list| - 1], separator, assigning) == "" <==> |list| == 1
    ensures LeadOf(list, separator, assigning) ==
      (if |list| == 1 then "" else separator) + (if assigning then list[|list| - 1].column + " = " else "")
  {
  }

  /** A list with its placeholders rewritten is its items joined. */
  lemma {:induction false} RewrittenList(list: seq<Assign>, separator: string, assigning: bool, rest: string)
    requires AreAssigns(list) && NoColon(separator) && separator != "" && EndsName(separator)
    requires list != [] ==> EndsName(rest)
    ensures Rewritten(MarkText(list, separator, assigning) + rest) ==
      Join(Marked(list, assigning), separator) + Rewritten(rest)
  {
    if list == [] {
      assert "" + rest == rest;
    } else {
      var tail := LastRewritten(list, separator, assigning, rest);
      RewrittenList(list[..|list| - 1], separator, assigning, tail);
      JoinLast(list, separator, assigning, Rewritten(rest));
    }
  }

  lemma JoinLast(list: seq<Assign>, separator: string, assigning: bool, rest: string)
    requires list != []
    ensures Join(Marked(list[..|list| - 1], assigning), separator) + (LeadOf(list, separator, assigning) + ("?" + rest)) ==
      Join(Marked(list, assigning), separator) + rest
  {
    var init, a := list[..|list| - 1], list[|list| - 1];
    var lead := if assigning then a.column + " = " else "";
    LeadIs(list, separator, assigning);
    MarkedMore(list, assigning);
    JoinMore(Marked(init, assigning), lead + "?", separator);
    assert lead + "?" == if assigning then a.column + " = ?" else "?";
    LastJoined(Join(Marked(init, assigning), separator), if |list| == 1 then "" else separator, lead, rest);
  }

  lemma LastJoined(before: string, separator: string, item: string, rest: string)
    ensures before + ((separator + item) + ("?" + rest)) == before + separator + (item + "?") + rest
  {
  }

  lemma {:induction false} ColumnsJoined(list: seq<Assign>)
    requires AreAssigns(list)
    ensures ColumnText(list) == Join(Columns(list), ", ")
  {
    if list == [] {
    } else {
      var init := list[..|list| - 1];
      ColumnsJoined(init);
      assert Columns(list) == Columns(init) + [list[|list| - 1].column];
      JoinMore(Columns(init), list[|list| - 1].column, ", ");
      assert init != [] ==> ColumnText(init) != "";
    }
  }

  lemma NameIsClean(name: string)
    requires IsName(name)
    ensures IsClean(name, ", ") && IsClean(name + " = ?", ", ") && IsClean(name + " = ?", " AND ")
  {
    var item := name + " = ?";
    assert forall i | 0 <= i < |item| :: item[i] != ',';
    assert item[|name|] == ' ' && item[|name| + 1] == '=' && item[|name| + 2] == ' ' && item[|name| + 3] == '?';
  }

  lemma MarkedSplit(list: seq<Assign>, sep: string)
    requires list != [] && AreAssigns(list) && (sep == ", " || sep == " AND ")
    ensures Split(Join(Assigned(Columns(list)), sep), sep) == Assigned(Columns(list))
  {
    forall i | 0 <= i < |list| ensures IsClean(Assigned(Columns(list))[i], sep) {
      NameIsClean(list[i].column);
    }
    SplitJoin(Assigned(Columns(list)), sep);
  }

  lemma ColumnsSplit(list: seq<Assign>)
    requires list != [] && AreAssigns(list)
    ensures Split(Join(Columns(list), ", "), ", ") == Columns(list)
    ensures Split(Join(Marked(list, false), ", "), ", ") == Marked(list, false)
  {
    forall i | 0 <= i < |list| ensures IsClean(Columns(list)[i], ", ") {
      NameIsClean(list[i].column);
    }
    SplitJoin(Columns(list), ", ");
    SplitJoin(Marked(list, false), ", ");
  }

  /** The INSERT in the buffer, put together from its two lists. */
  lemma InsertRewritten(table: string, names: seq<string>, parent: Option<string>)
    requires IsName(table) && AreFields(names) && IsParent(parent)
    ensures var list := Inserted(names, parent);
            Rewritten(InsertText(table, names, parent)) ==
              "INSERT INTO " + table + " (" + ColumnText(list) + ") VALUES (" + Join(Marked(list, false), ", ") + ")"
  {
    ListsAreAssigns(names, parent);
    var list := Inserted(names, parent);
    var lead := "INSERT INTO " + table + " (" + ColumnText(list) + ") VALUES (";
    ColumnTextPlain(list);
    Regroup(lead, MarkText(list, ", ", false), ")");
    RewrittenPlain(lead, MarkText(list, ", ", false) + ")");
    RewrittenList(list, ", ", false, ")");
    RewrittenPlain(")", "");
    Regroup(lead, Join(Marked(list, false), ", "), ")");
  }

  /** The INSERT in the buffer names its columns in the order of its question marks. */
  lemma InsertReads(table: string, names: seq<string>, parent: Option<string>)
    requires IsName(table) && AreFields(names) && IsParent(parent)
    ensures IsInsert(Rewritten(InsertText(table, names, parent)), table, InsertColumns(names, parent))
  {
    ListsAreAssigns(names, parent);
    var list := Inserted(names, parent);
    InsertRewritten(table, names, parent);
    ColumnsJoined(list);
    ColumnsSplit(list);
    InsertedIs(names, parent);
  }

  /** A list of the assignments of a key, at the end of a statement. */
  lemma KeyReads(names: seq<string>, parent: Option<string>) returns (keys: string)
    requires AreFields(names) && IsParent(parent)
    ensures Rewritten(MarkText(Key(names, parent), " AND ", true)) == keys
    ensures Split(keys, " AND ") == Assigned(KeyColumns(names, parent))
  {
    ListsAreAssigns(names, parent);
    var list := Key(names, parent);
    keys := Join(Marked(list, true), " AND ");
    RewrittenList(list, " AND ", true, "");
    assert MarkText(list, " AND ", true) + "" == MarkText(list, " AND ", true);
    MarkedSplit(list, " AND ");
    UpdatedIs(names, parent);
  }

  lemma SelectReads(table: string, names: seq<string>, parent: Option<string>)
    requires IsName(table) && AreFields(names) && IsParent(parent)
    ensures IsSelect(Rewritten(SelectText(table, names, parent)), table, KeyColumns(names, parent))
  {
    var keys := KeyReads(names, parent);
    RewrittenPlain("SELECT _checksum FROM " + table + " WHERE ", MarkText(Key(names, parent), " AND ", true));
  }

  lemma LeadAndListRewritten(lead: string, list: seq<Assign>, separator: string, assigning: bool, tail: string)
    requires NoColon(lead) && AreAssigns(list) && NoColon(separator) && separator != "" && EndsName(separator)
    requires EndsName(tail)
    ensures Rewritten(lead + (MarkText(list, separator, assigning) + tail)) ==
      lead + (Join(Marked(list, assigning), separator) + Rewritten(tail))
  {
    RewrittenPlain(lead, MarkText(list, separator, assigning) + tail);
    RewrittenList(list, separator, assigning, tail);
  }

  lemma WhereReads(names: seq<string>, parent: Option<string>) returns (keys: string)
    requires AreFields(names) && IsParent(parent)
    ensures Rewritten(" WHERE " + MarkText(Key(names, parent), " AND ", true)) == " WHERE " + keys
    ensures Split(keys, " AND ") == Assigned(KeyColumns(names, parent))
  {
    keys := KeyReads(names, parent);
    RewrittenPlain(" WHERE ", MarkText(Key(names, parent), " AND ", true));
  }

  /** The UPDATE in the buffer, put together from its two lists. */
  lemma UpdateRewritten(table: string, names: seq<string>, parent: Option<string>) returns (keys: string)
    requires IsName(table) && AreFields(names) && IsParent(parent)
    ensures Rewritten(UpdateText(table, names, parent)) ==
      "UPDATE " + table + " SET " + Join(Marked(Updated(names), true), ", ") + " WHERE " + keys
    ensures Split(keys, " AND ") == Assigned(KeyColumns(names, parent))
  {
    ListsAreAssigns(names, parent);
    var list, lead, where := Updated(names), "UPDATE " + table + " SET ", MarkText(Key(names, parent), " AND ", true);
    keys := WhereReads(names, parent);
    FourParts(lead, MarkText(list, ", ", true), " WHERE ", where);
    LeadAndListRewritten(lead, list, ", ", true, " WHERE " + where);
    FourParts(lead, Join(Marked(list, true), ", "), " WHERE ", keys);
  }

  /** The UPDATE in the buffer sets each column to its own question mark. */
  lemma UpdateReads(table: string, names: seq<string>, parent: Option<string>)
    requires IsName(table) && AreFields(names) && IsParent(parent)
    ensures IsUpdate(Rewritten(UpdateText(table, names, parent)), table, SetColumns(names), KeyColumns(names, parent))
  {
    ListsAreAssigns(names, parent);
    var keys := UpdateRewritten(table, names, parent);
    MarkedSplit(Updated(names), ", ");
    UpdatedIs(names, parent);
  }

  // ---- binding

  datatype Binding = Binding(name: string, value: Value)

  function BindAll(parameters: seq<Parameter<Value>>, bindings: seq<Binding>): seq<Parameter<Value>> {
    if bindings == [] then parameters
    else
      var b := bindings[|bindings| - 1];
      Bound(BindAll(parameters, bindings[..|bindings| - 1]), b.name, b.value)
  }

  function BindingsOf(list: seq<Assign>): seq<Binding> {
    seq(|list|, i requires 0 <= i < |list| => Binding(":" + list[i].mark, list[i].value))
  }

  /** The k-th question mark has the k-th of these values. */
  predicate HasValues(parameters: seq<Parameter<Value>>, values: seq<Value>) {
    |parameters| == |values| && forall k | 0 <= k < |values| :: parameters[k].value == Some(values[k])
  }

  lemma BoundIsValues(parameters: seq<Parameter<Value>>, columns: seq<Assign>)
    ensures AllBound(parameters, columns) <==> HasValues(parameters, Values(columns))
  {
  }

  /** Every question mark has the value of the column it stands for. */
  predicate AllBound(parameters: seq<Parameter<Value>>, columns: seq<Assign>) {
    |parameters| == |columns| && forall k | 0 <= k < |columns| :: parameters[k].value == Some(columns[k].value)
  }

  predicate Fresh(parameters: seq<Parameter<Value>>, columns: seq<Assign>) {
    && NamesOf(parameters) == Marks(columns)
    && forall k | 0 <= k < |parameters| :: parameters[k].value == None
  }

  /** The first parameter of its name. */
  predicate IsFirst(parameters: seq<Parameter<Value>>, k: nat) {
    k < |parameters| && forall i | 0 <= i < k :: parameters[i].name != parameters[k].name
  }

  lemma FirstIsFirst(parameters: seq<Parameter<Value>>, k: nat)
    requires IsFirst(parameters, k)
    ensures FirstFrom(parameters, parameters[k].name, 0) == k
  {
  }

  /** Binding never changes a name, and a second parameter of a name is never reached. */
  lemma {:induction false} BindKeeps(parameters: seq<Parameter<Value>>, bindings: seq<Binding>, k: nat)
    requires k < |parameters|
    ensures |BindAll(parameters, bindings)| == |parameters|
    ensures BindAll(parameters, bindings)[k].name == parameters[k].name
    ensures !IsFirst(parameters, k) || (forall b | b in bindings :: b.name != parameters[k].name) ==>
      BindAll(parameters, bindings)[k].value == parameters[k].value
  {
    if bindings == [] {
    } else {
      var init, b := bindings[..|bindings| - 1], bindings[|bindings| - 1];
      assert b in bindings;
      forall i | 0 <= i < |parameters| ensures |BindAll(parameters, init)| == |parameters| &&
        BindAll(parameters, init)[i].name == parameters[i].name
      {
        BindKeeps(parameters, init, i);
      }
      BindKeeps(parameters, init, k);
    }
  }

  /** The first parameter of a name takes the value bound to it. */
  lemma {:induction false} BindReaches(parameters: seq<Parameter<Value>>, bindings: seq<Binding>, k: nat, j: nat)
    requires IsFirst(parameters, k) && j < |bindings| && bindings[j].name == parameters[k].name
    requires forall i | 0 <= i < |bindings| && i != j :: bindings[i].name != parameters[k].name
    ensures |BindAll(parameters, bindings)| == |parameters|
    ensures BindAll(parameters, bindings)[k].value == Some(bindings[j].value)
  {
    var init, b := bindings[..|bindings| - 1], bindings[|bindings| - 1];
    var was := BindAll(parameters, init);
    forall i | 0 <= i < |parameters| ensures |was| == |parameters| && was[i].name == parameters[i].name {
      BindKeeps(parameters, init, i);
    }
    if j == |bindings| - 1 {
      assert IsFirst(was, k);
      FirstIsFirst(was, k);
    } else {
      BindReaches(parameters, init, k, j);
    }
  }

  predicate DistinctMarks(list: seq<Assign>) {
    forall i, j | 0 <= i < j < |list| :: list[i].mark != list[j].mark
  }

  /** at tells where the binding of each column is. */
  lemma BoundEverywhere(parameters: seq<Parameter<Value>>, columns: seq<Assign>, bound: seq<Assign>, at: seq<nat>)
    requires Fresh(parameters, columns) && DistinctMarks(columns) && DistinctMarks(bound) && |at| == |columns|
    requires forall k | 0 <= k < |columns| ::
      at[k] < |bound| && bound[at[k]].mark == columns[k].mark && bound[at[k]].value == columns[k].value
    ensures AllBound(BindAll(parameters, BindingsOf(bound)), columns)
  {
    var bindings := BindingsOf(bound);
    BindLength(parameters, bindings);
    assert |Marks(columns)| == |parameters|;
    forall k | 0 <= k < |columns| ensures BindAll(parameters, bindings)[k].value == Some(columns[k].value) {
      MarksDiffer(columns, parameters, k);
      forall i | 0 <= i < |bound| && i != at[k] ensures bindings[i].name != parameters[k].name {
        MarkOf(bound[i].mark);
        MarkOf(columns[k].mark);
        assert parameters[k].name == Marks(columns)[k];
      }
      BindReaches(parameters, bindings, k, at[k]);
    }
  }

  lemma MarksDiffer(columns: seq<Assign>, parameters: seq<Parameter<Value>>, k: nat)
    requires Fresh(parameters, columns) && DistinctMarks(columns) && k < |parameters|
    ensures IsFirst(parameters, k) && parameters[k].name == ":" + columns[k].mark
  {
    assert forall i | 0 <= i < |columns| :: parameters[i].name == Marks(columns)[i];
    MarkOf(columns[k].mark);
    forall i | 0 <= i < k ensures parameters[i].name != parameters[k].name {
      MarkOf(columns[i].mark);
    }
  }

  lemma MarkOf(mark: string)
    ensures (":" + mark)[1..] == mark
  {
  }

  lemma {:induction false} BindLength(parameters: seq<Parameter<Value>>, bindings: seq<Binding>)
    ensures |BindAll(parameters, bindings)| == |parameters|
  {
    if bindings == [] {
    } else {
      BindLength(parameters, bindings[..|bindings| - 1]);
    }
  }

  function Indices(n: nat): seq<nat> {
    seq(n, i => i)
  }

  /** The SELECT is always bound right. */
  lemma SelectBound(parameters: seq<Parameter<Value>>, names: seq<string>, parent: Option<string>)
    requires AreFields(names) && Fresh(parameters, Key(names, parent))
    ensures AllBound(BindAll(parameters, BindingsOf(Key(names, parent))), Key(names, parent))
  {
    var list := Key(names, parent);
    BoundEverywhere(parameters, list, list, Indices(|list|));
  }

  lemma OwnMarks(parent: Option<string>)
    ensures DistinctMarks(OwnAssigns(parent))
    ensures forall j | 0 <= j < |OwnAssigns(parent)| :: OwnAssigns(parent)[j].mark != "id"
  {
    assert "_checksum"[1] == 'c' && "_parent"[1] == 'p' && "_last_updated"[1] == 'l' && "_deleted"[1] == 'd';
  }

  lemma InsertedSplit(names: seq<string>, parent: Option<string>)
    ensures Inserted(names, parent) == FieldAssigns(names, 0) + OwnAssigns(parent)
  {
  }

  lemma InsertedDistinct(names: seq<string>, parent: Option<string>)
    requires AreFields(names) && NoneReserved(names, parent)
    ensures DistinctMarks(Inserted(names, parent))
  {
    OwnMarks(parent);
    ReservedIsOwn(names, parent);
    InsertedSplit(names, parent);
  }

  lemma ReservedIsOwn(names: seq<string>, parent: Option<string>)
    ensures NoneReserved(names, parent) <==>
      forall i, j | 0 <= i < |names| && 0 <= j < |OwnAssigns(parent)| :: names[i] != OwnAssigns(parent)[j].mark
  {
    var own, p := OwnAssigns(parent), |ParentAssign(parent)|;
    assert own[p].mark == "_checksum" && own[p + 1].mark == "_last_updated" && own[p + 2].mark == "_deleted";
    assert parent.Some? ==> own[0].mark == "_parent";
  }

  /** Of two columns with the same placeholder the second is never bound. */
  lemma SecondUnbound(parameters: seq<Parameter<Value>>, columns: seq<Assign>, bindings: seq<Binding>, i: nat, k: nat)
    requires Fresh(parameters, columns) && i < k < |columns| && columns[i].mark == columns[k].mark
    ensures !AllBound(BindAll(parameters, bindings), columns)
  {
    assert |Marks(columns)| == |parameters|;
    assert parameters[i].name == Marks(columns)[i] && parameters[k].name == Marks(columns)[k];
    BindKeeps(parameters, bindings, k);
  }

  /** The INSERT is bound right exactly when no field has a placeholder of the row's own columns. */
  lemma InsertBoundIffNoneReserved(parameters: seq<Parameter<Value>>, names: seq<string>, parent: Option<string>)
    requires AreFields(names) && Fresh(parameters, Inserted(names, parent))
    ensures AllBound(BindAll(parameters, BindingsOf(Inserted(names, parent))), Inserted(names, parent))
      <==> NoneReserved(names, parent)
  {
    var list := Inserted(names, parent);
    if NoneReserved(names, parent) {
      InsertedDistinct(names, parent);
      BoundEverywhere(parameters, list, list, Indices(|list|));
    } else {
      ReservedIsOwn(names, parent);
      var i, j :| 0 <= i < |names| && 0 <= j < |OwnAssigns(parent)| && names[i] == OwnAssigns(parent)[j].mark;
      InsertedSplit(names, parent);
      SecondUnbound(parameters, list, BindingsOf(list), i, |names| + j);
    }
  }

  /** Where the bindings of an UPDATE's columns are, in the order of the INSERT's. */
  function UpdateIndices(names: seq<string>, parent: Option<string>): seq<nat>
    requires names != []
  {
    var n, p := |names|, |ParentAssign(parent)|;
    seq(n - 1, i => i + 1) + [n + p, n + p + 1, n + p + 2] + [0] + seq(p, i => n)
  }

  /** The columns of an UPDATE, the row's own ones but its parent in the middle. */
  lemma UpdatedAt(names: seq<string>, parent: Option<string>, k: nat)
    requires names != []
    requires k < |Updated(names) + Key(names, parent)|
    ensures var a := (Updated(names) + Key(names, parent))[k];
            if k < |names| - 1 then a.mark == names[k + 1]
            else if k < |names| + 2 then a == SYSTEM[k - (|names| - 1)]
            else if k == |names| + 2 then a.mark == "id"
            else a.mark == "_parent" && parent.Some?
  {
  }

  lemma OwnAt(names: seq<string>, parent: Option<string>, k: nat) returns (j: nat)
    requires names != [] && |names| - 1 <= k < |Updated(names) + Key(names, parent)| && k != |names| + 2
    ensures j < |OwnAssigns(parent)| && OwnAssigns(parent)[j].mark == (Updated(names) + Key(names, parent))[k].mark
    ensures j == if k < |names| + 2 then |ParentAssign(parent)| + k - (|names| - 1) else 0
  {
    UpdatedAt(names, parent, k);
    j := if k < |names| + 2 then |ParentAssign(parent)| + k - (|names| - 1) else 0;
  }

  lemma UpdateDiffers(names: seq<string>, parent: Option<string>, i: nat, j: nat)
    requires AreFields(names) && names[0] == "id" && NoneReserved(names, parent)
    requires i < j < |Updated(names) + Key(names, parent)|
    ensures (Updated(names) + Key(names, parent))[i].mark != (Updated(names) + Key(names, parent))[j].mark
  {
    OwnMarks(parent);
    ReservedIsOwn(names, parent);
    UpdatedAt(names, parent, i);
    UpdatedAt(names, parent, j);
    if i >= |names| - 1 && i != |names| + 2 {
      var x := OwnAt(names, parent, i);
    }
    if j >= |names| - 1 && j != |names| + 2 {
      var y := OwnAt(names, parent, j);
    }
  }

  lemma UpdateBoundById(parameters: seq<Parameter<Value>>, names: seq<string>, parent: Option<string>)
    requires AreFields(names) && Fresh(parameters, Updated(names) + Key(names, parent))
    requires names[0] == "id" && NoneReserved(names, parent)
    ensures AllBound(BindAll(parameters, BindingsOf(Inserted(names, parent))), Updated(names) + Key(names, parent))
  {
    var list := Updated(names) + Key(names, parent);
    InsertedDistinct(names, parent);
    forall i, j | 0 <= i < j < |list| ensures list[i].mark != list[j].mark {
      UpdateDiffers(names, parent, i, j);
    }
    BoundEverywhere(parameters, list, Inserted(names, parent), UpdateIndices(names, parent));
  }

  /** With any other key column the :id of the UPDATE stays unbound. */
  lemma UpdateKeyUnbound(parameters: seq<Parameter<Value>>, names: seq<string>, parent: Option<string>)
    requires AreFields(names) && Fresh(parameters, Updated(names) + Key(names, parent)) && names[0] != "id"
    ensures !AllBound(BindAll(parameters, BindingsOf(Inserted(names, parent))), Updated(names) + Key(names, parent))
  {
    var columns, bound := Updated(names) + Key(names, parent), Inserted(names, parent);
    var k := |Updated(names)|;
    assert columns[k].mark == "id";
    if i :| 1 <= i < |names| && names[i] == "id" {
      SecondUnbound(parameters, columns, BindingsOf(bound), i - 1, k);
    } else {
      OwnMarks(parent);
      InsertedSplit(names, parent);
      assert |Marks(columns)| == |parameters| && parameters[k].name == Marks(columns)[k] == ":id";
      forall j | 0 <= j < |bound| ensures BindingsOf(bound)[j].name != ":id" {
        MarkOf(bound[j].mark);
      }
      BindKeeps(parameters, BindingsOf(bound), k);
    }
  }

  /** A field after the key with a placeholder of the row's own columns has it twice. */
  lemma UpdateReservedUnbound(parameters: seq<Parameter<Value>>, names: seq<string>, parent: Option<string>, i: nat, j: nat)
    requires AreFields(names) && Fresh(parameters, Updated(names) + Key(names, parent))
    requires 0 < i < |names| && j < |OwnAssigns(parent)| && names[i] == OwnAssigns(parent)[j].mark
    ensures !AllBound(BindAll(parameters, BindingsOf(Inserted(names, parent))), Updated(names) + Key(names, parent))
  {
    var p := |ParentAssign(parent)|;
    var k := if j < p then |names| + 3 else |names| - 1 + (j - p);
    UpdatedAt(names, parent, i - 1);
    UpdatedAt(names, parent, k);
    SecondUnbound(parameters, Updated(names) + Key(names, parent), BindingsOf(Inserted(names, parent)), i - 1, k);
  }

  /** The UPDATE is bound right exactly when the key column is called id and no
      field has a placeholder of the row's own columns. */
  lemma UpdateBoundIffKeyIsId(parameters: seq<Parameter<Value>>, names: seq<string>, parent: Option<string>)
    requires AreFields(names) && Fresh(parameters, Updated(names) + Key(names, parent))
    ensures AllBound(BindAll(parameters, BindingsOf(Inserted(names, parent))), Updated(names) + Key(names, parent))
      <==> names[0] == "id" && NoneReserved(names, parent)
  {
    if names[0] != "id" {
      UpdateKeyUnbound(parameters, names, parent);
    } else if NoneReserved(names, parent) {
      UpdateBoundById(parameters, names, parent);
    } else {
      ReservedIsOwn(names, parent);
      var i, j :| 0 <= i < |names| && 0 <= j < |OwnAssigns(parent)| && names[i] == OwnAssigns(parent)[j].mark;
      OwnMarks(parent);
      UpdateReservedUnbound(parameters, names, parent, i, j);
    }
  }

  // ---- building the texts

  method AddMark(text: string, ghost list: seq<Assign>, a: Assign, assigning: bool) returns (more: string)
    requires text == MarkText(list, ", ", assigning)
    ensures more == MarkText(list + [a], ", ", assigning)
  {
    assert (list + [a])[..|list|] == list;
    more := text + (Lead(text, ", ", if assigning then a.column + " = " else "") + (":" + a.mark));
  }

  method AddColumn(text: string, ghost list: seq<Assign>, a: Assign) returns (more: string)
    requires text == ColumnText(list)
    ensures more == ColumnText(list + [a])
  {
    assert (list + [a])[..|list|] == list;
    more := text + Lead(text, ", ", a.column);
  }

  lemma FieldsMore(names: seq<string>, from: nat, i: nat)
    requires from <= i < |names|
    ensures FieldAssigns(names[..i + 1], from) == FieldAssigns(names[..i], from) + [Assign(names[i], names[i], Slot(i))]
  {
  }

  lemma ListMore(before: seq<Assign>, list: seq<Assign>, i: nat)
    requires i < |list|
    ensures before + list[..i + 1] == before + list[..i] + [list[i]]
  {
  }

  method MoreMarks(text: string, list: seq<Assign>, ghost before: seq<Assign>, assigning: bool) returns (more: string)
    requires text == MarkText(before, ", ", assigning)
    ensures more == MarkText(before + list, ", ", assigning)
  {
    more := text;
    assert before + list[..0] == before;
    for i := 0 to |list|
      invariant more == MarkText(before + list[..i], ", ", assigning)
    {
      ListMore(before, list, i);
      more := AddMark(more, before + list[..i], list[i], assigning);
    }
    assert list[..|list|] == list;
  }

  method MoreColumns(text: string, list: seq<Assign>, ghost before: seq<Assign>) returns (more: string)
    requires text == ColumnText(before)
    ensures more == ColumnText(before + list)
  {
    more := text;
    assert before + list[..0] == before;
    for i := 0 to |list|
      invariant more == ColumnText(before + list[..i])
    {
      ListMore(before, list, i);
      more := AddColumn(more, before + list[..i], list[i]);
    }
    assert list[..|list|] == list;
  }

  /** The three lists: columns, their placeholders, and the assignments of all but the key. */
  method ListTexts(names: seq<string>, parent: Option<string>) returns (cols: string, vals: string, sets: string)
    requires names != []
    ensures cols == ColumnText(Inserted(names, parent)) && vals == MarkText(Inserted(names, parent), ", ", false)
    ensures sets == MarkText(Updated(names), ", ", true)
  {
    cols, vals, sets := "", "", "";
    for i := 0 to |names|
      invariant cols == ColumnText(FieldAssigns(names[..i], 0)) && vals == MarkText(FieldAssigns(names[..i], 0), ", ", false)
      invariant sets == if i == 0 then "" else MarkText(FieldAssigns(names[..i], 1), ", ", true)
    {
      FieldsMore(names, 0, i);
      cols := AddColumn(cols, FieldAssigns(names[..i], 0), Assign(names[i], names[i], Slot(i)));
      vals := AddMark(vals, FieldAssigns(names[..i], 0), Assign(names[i], names[i], Slot(i)), false);
      if i > 0 {
        FieldsMore(names, 1, i);
        sets := AddMark(sets, FieldAssigns(names[..i], 1), Assign(names[i], names[i], Slot(i)), true);
      }
    }
    assert names[..|names|] == names;
    ghost var fields := FieldAssigns(names, 0);
    if parent.Some? {
      cols := AddColumn(cols, fields, Assign(parent.value, "_parent", ParentId));
      vals := AddMark(vals, fields, Assign(parent.value, "_parent", ParentId), false);
    } else {
      assert fields + ParentAssign(parent) == fields;
    }
    cols := MoreColumns(cols, SYSTEM, fields + ParentAssign(parent));
    vals := MoreMarks(vals, SYSTEM, fields + ParentAssign(parent), false);
    sets := MoreMarks(sets, SYSTEM, FieldAssigns(names, 1), true);
  }

  method KeyText(names: seq<string>, parent: Option<string>) returns (text: string)
    requires names != []
    ensures text == MarkText(Key(names, parent), " AND ", true)
  {
    ghost var one := [Assign(names[0], "id", Slot(0))];
    assert one[..0] == [];
    text := Lead("", " AND ", names[0] + " = ") + (":" + "id");
    assert text == MarkText(one, " AND ", true);
    if parent.Some? {
      assert Key(names, parent)[..1] == one;
      text := text + (Lead(text, " AND ", parent.value + " = ") + (":" + "_parent"));
    } else {
      assert Key(names, parent) == one;
    }
  }

  method WriteText(table: string, names: seq<string>, parent: Option<string>, insert: bool) returns (text: string)
    requires names != []
    ensures text == if insert then InsertText(table, names, parent) else UpdateText(table, names, parent)
  {
    var cols, vals, sets := ListTexts(names, parent);
    if insert {
      text := "INSERT INTO " + table + " (" + cols + ") VALUES (" + vals + ")";
    } else {
      var key := KeyText(names, parent);
      text := "UPDATE " + table + " SET " + sets + " WHERE " + key;
    }
  }

  // ---- binding the queries

  lemma BindNext(parameters: seq<Parameter<Value>>, list: seq<Assign>, i: nat)
    requires i < |list|
    ensures BindAll(parameters, BindingsOf(list[..i + 1])) ==
      Bound(BindAll(parameters, BindingsOf(list[..i])), ":" + list[i].mark, list[i].value)
  {
    assert BindingsOf(list[..i + 1])[..i] == BindingsOf(list[..i]);
  }

  /** Binds the values to the placeholders, whether the text has them or not. */
  method BindList(query: Query<Value>, list: seq<Assign>)
    modifies query.parameters
    ensures query.parameters[..] == BindAll(old(query.parameters[..]), BindingsOf(list))
  {
    ghost var was := query.parameters[..];
    for i := 0 to |list|
      invariant query.parameters[..] == BindAll(was, BindingsOf(list[..i]))
    {
      BindNext(was, list, i);
      var found := query.AddParam(":" + list[i].mark, list[i].value);
    }
    assert list[..|list|] == list;
  }

  /** The SELECT of the stored checksum: every question mark has its column's value. */
  method SelectQuery(table: string, names: seq<string>, parent: Option<string>) returns (query: Query<Value>)
    requires IsName(table) && AreFields(names) && IsParent(parent)
    ensures exists sql :: IsCString(query.query[..], sql) && IsSelect(sql, table, KeyColumns(names, parent))
    ensures HasValues(query.parameters[..], KeyValues(parent))
  {
    SelectReads(table, names, parent);
    UpdatedIs(names, parent);
    var key := KeyText(names, parent);
    var text := "SELECT _checksum FROM " + table + " WHERE " + key;
    SelectNames(table, names, parent);
    query := new Query(text);
    SelectBound(query.parameters[..], names, parent);
    BindList(query, Key(names, parent));
    BoundIsValues(query.parameters[..], Key(names, parent));
  }

  /** The INSERT or UPDATE a caller asks for, read as SQL. */
  ghost predicate IsStatement(sql: string, table: string, names: seq<string>, parent: Option<string>, insert: bool)
    requires names != []
  {
    if insert then IsInsert(sql, table, InsertColumns(names, parent))
    else IsUpdate(sql, table, SetColumns(names), KeyColumns(names, parent))
  }

  /** The values its question marks should have. */
  function StatementValues(names: seq<string>, parent: Option<string>, insert: bool): seq<Value>
    requires names != []
  {
    if insert then InsertValues(names, parent) else SetValues(names) + KeyValues(parent)
  }

  lemma StatementReads(table: string, names: seq<string>, parent: Option<string>, insert: bool)
    requires IsName(table) && AreFields(names) && IsParent(parent)
    ensures var text := if insert then InsertText(table, names, parent) else UpdateText(table, names, parent);
            var columns := if insert then Inserted(names, parent) else Updated(names) + Key(names, parent);
            IsStatement(Rewritten(text), table, names, parent, insert) && Names(text) == Marks(columns)
  {
    if insert {
      InsertNames(table, names, parent);
      InsertReads(table, names, parent);
    } else {
      UpdateNames(table, names, parent);
      UpdateReads(table, names, parent);
    }
  }

  lemma StatementBound(parameters: seq<Parameter<Value>>, names: seq<string>, parent: Option<string>, insert: bool)
    requires AreFields(names)
    requires Fresh(parameters, if insert then Inserted(names, parent) else Updated(names) + Key(names, parent))
    ensures HasValues(BindAll(parameters, BindingsOf(Inserted(names, parent))), StatementValues(names, parent, insert)) <==>
            NoneReserved(names, parent) && (insert || names[0] == "id")
  {
    var bound := BindAll(parameters, BindingsOf(Inserted(names, parent)));
    if insert {
      InsertedIs(names, parent);
      InsertBoundIffNoneReserved(parameters, names, parent);
      BoundIsValues(bound, Inserted(names, parent));
    } else {
      UpdatedIs(names, parent);
      UpdateBoundIffKeyIsId(parameters, names, parent);
      BoundIsValues(bound, Updated(names) + Key(names, parent));
    }
  }

  /** The INSERT or UPDATE in the buffer, read as SQL, and the value of each of its
      question marks: the one of the column it stands for, exactly when no field
      has a placeholder of the row's own columns and, in an UPDATE, the key column
      is called id. */
  method WriteQuery(table: string, names: seq<string>, parent: Option<string>, insert: bool) returns (query: Query<Value>)
    requires IsName(table) && AreFields(names) && IsParent(parent)
    ensures exists sql :: IsCString(query.query[..], sql) && IsStatement(sql, table, names, parent, insert)
    ensures HasValues(query.parameters[..], StatementValues(names, parent, insert)) <==>
            NoneReserved(names, parent) && (insert || names[0] == "id")
  {
    var text := WriteText(table, names, parent, insert);
    StatementReads(table, names, parent, insert);
    query := new Query(text);
    StatementBound(query.parameters[..], names, parent, insert);
    BindList(query, Inserted(names, parent));
    assert IsCString(query.query[..], Rewritten(text));
  }
}
