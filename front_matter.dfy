/**
  The front-matter table: `safeToString` renders an attribute value as table text, and
  `formatFrontMatterAsMarkdown` keeps the usable attributes and lays them out as a Markdown
  table under a fixed heading, labelling known keys through the key map.

  `JSON.stringify` of an object and the date formatter are parameters: `stringify` maps an
  object's identity to its JSON text, `formatDate` maps a date attribute to its display text.
 */
module FrontMatter {
  import opened Text

  /** An attribute value as the YAML parser produces it; numbers are integral, objects are known by identity. */
  datatype Value =
    | Undefined
    | Null
    | Str(s: string)
    | Num(n: int)
    | Bool(b: bool)
    | Arr(items: seq<Value>)
    | Obj(id: nat)

  /** Models `safeToString(value)`. */
  function SafeToString(v: Value, stringify: nat -> string): string
    decreases v
  {
    match v
    case Undefined => ""
    case Null => ""
    case Str(s) => s
    case Num(n) => DecimalString(n)
    case Bool(b) => if b then "true" else "false"
    case Arr(items) => Join(seq(|items|, i requires 0 <= i < |items| => SafeToString(items[i], stringify)), ", ")
    case Obj(id) => stringify(id)
  }

  /** When a value renders as an empty cell, stated without reference to the rendering itself. */
  predicate RendersBlank(v: Value, stringify: nat -> string)
    decreases v
  {
    match v
    case Undefined => true
    case Null => true
    case Str(s) => s == ""
    case Num(_) => false
    case Bool(_) => false
    case Arr(items) => |items| == 0 || (|items| == 1 && RendersBlank(items[0], stringify))
    case Obj(id) => stringify(id) == ""
  }

  /** A value renders as the empty string exactly when it is blank in the above sense. */
  lemma {:induction false} SafeToStringEmptyIff(v: Value, stringify: nat -> string)
    ensures SafeToString(v, stringify) == "" <==> RendersBlank(v, stringify)
    decreases v
  {
    match v
    case Arr(items) =>
      var parts := seq(|items|, i requires 0 <= i < |items| => SafeToString(items[i], stringify));
      if |items| == 1 {
        assert Join(parts, ", ") == SafeToString(items[0], stringify);
        SafeToStringEmptyIff(items[0], stringify);
      } else if |items| >= 2 {
        assert |Join(parts, ", ")| >= 2;
      }
    case Num(n) =>
      assert |DecimalString(n)| >= 1;
    case _ =>
  }

  /** The rendering of a concatenated array is the two renderings joined by the separator. */
  lemma ArrayAppend(a: seq<Value>, b: seq<Value>, stringify: nat -> string)
    requires a != [] && b != []
    ensures SafeToString(Arr(a + b), stringify)
         == SafeToString(Arr(a), stringify) + ", " + SafeToString(Arr(b), stringify)
  {
    var pa := seq(|a|, i requires 0 <= i < |a| => SafeToString(a[i], stringify));
    var pb := seq(|b|, i requires 0 <= i < |b| => SafeToString(b[i], stringify));
    var ab := a + b;
    var pab := seq(|ab|, i requires 0 <= i < |ab| => SafeToString(ab[i], stringify));
    assert pab == pa + pb;
    JoinAppend(pa, pb, ", ");
  }

  /**
    Nesting is invisible in a cell: an array of two non-empty arrays renders like their
    concatenation, and a one-element array renders like its element.
   */
  lemma NestedArraysFlatten(a: seq<Value>, b: seq<Value>, stringify: nat -> string)
    requires a != [] && b != []
    ensures SafeToString(Arr([Arr(a), Arr(b)]), stringify) == SafeToString(Arr(a + b), stringify)
    ensures SafeToString(Arr([Arr(a)]), stringify) == SafeToString(Arr(a), stringify)
  {
    ArrayAppend(a, b, stringify);
    ArrayAppend([Arr(a)], [Arr(b)], stringify);
    assert [Arr(a)] + [Arr(b)] == [Arr(a), Arr(b)];
  }

  /** The display labels of the known attribute keys. */
  const KEY_MAP: map<string, string> := map[
    "created" := "创建时间",
    "updated" := "更新时间",
    "revisions" := "修订次数",
    "author" := "作者",
    "title" := "标题",
    "description" := "描述",
    "introduction" := "前言",
    "tags" := "标签",
    "category" := "分类"]

  /** Models `keyMap[key] || key`: the mapped label when it is non-empty, else the key. */
  function Label(key: string): (text: string)
    ensures key in KEY_MAP ==> text == KEY_MAP[key]
    ensures key !in KEY_MAP ==> text == key
  {
    var mapped := if key in KEY_MAP then KEY_MAP[key] else "";
    if mapped != "" then mapped else key
  }

  /** An attribute as `Object.entries` lists it. */
  datatype Entry = Entry(key: string, value: Value)

  /** The date attributes, which pass through the date formatter before rendering. */
  predicate IsDateKey(key: string) {
    key == "created" || key == "updated"
  }

  /** The text in the value column of an attribute's row. */
  function CellText(e: Entry, stringify: nat -> string, formatDate: Value -> string): (cell: string)
    ensures IsDateKey(e.key) ==> cell == formatDate(e.value)
    ensures !IsDateKey(e.key) ==> cell == SafeToString(e.value, stringify)
  {
    var value := if IsDateKey(e.key) then Str(formatDate(e.value)) else e.value;
    SafeToString(value, stringify)
  }

  /** The table row of an attribute. */
  function Row(e: Entry, stringify: nat -> string, formatDate: Value -> string): string
  {
    "| " + Label(e.key) + " | " + CellText(e, stringify, formatDate) + " |\n"
  }

  /** The filter of `front-matter.ts`: a defined, non-null value under a key that is not blank. */
  predicate IsKept(e: Entry) {
    !e.value.Undefined? && !e.value.Null? && Trim(e.key) != ""
  }

  /** Models `entries.filter(keep)`: the entries that pass, in their order. */
  function KeepEntries(entries: seq<Entry>, keep: Entry -> bool): (kept: seq<Entry>)
    ensures |kept| <= |entries|
    ensures forall e :: e in kept <==> e in entries && keep(e)
    decreases |entries|
  {
    if entries == [] then []
    else if keep(entries[0]) then [entries[0]] + KeepEntries(entries[1..], keep)
    else KeepEntries(entries[1..], keep)
  }

  /** Filtering distributes over concatenation, so the kept entries keep their relative order. */
  lemma {:induction false} KeepEntriesAppend(a: seq<Entry>, b: seq<Entry>, keep: Entry -> bool)
    ensures KeepEntries(a + b, keep) == KeepEntries(a, keep) + KeepEntries(b, keep)
    decreases |a|
  {
    if a != [] {
      assert (a + b)[0] == a[0];
      assert (a + b)[1..] == a[1..] + b;
      KeepEntriesAppend(a[1..], b, keep);
    } else {
      assert a + b == b;
    }
  }

  /** Two filters that agree on every entry keep the same entries. */
  lemma {:induction false} KeepEntriesAgree(entries: seq<Entry>, p: Entry -> bool, q: Entry -> bool)
    requires forall e :: e in entries ==> p(e) == q(e)
    ensures KeepEntries(entries, p) == KeepEntries(entries, q)
    decreases |entries|
  {
    if entries != [] {
      assert entries[0] in entries;
      assert forall e :: e in entries[1..] ==> e in entries;
      KeepEntriesAgree(entries[1..], p, q);
    }
  }

  /** The rows of the kept attributes, one per attribute, in order. */
  function Rows(kept: seq<Entry>, stringify: nat -> string, formatDate: Value -> string): string
    decreases |kept|
  {
    if kept == [] then ""
    else Rows(kept[..|kept| - 1], stringify, formatDate) + Row(kept[|kept| - 1], stringify, formatDate)
  }

  /** The rows of two lists of attributes, one after the other. */
  lemma {:induction false} RowsAppend(a: seq<Entry>, b: seq<Entry>, stringify: nat -> string, formatDate: Value -> string)
    ensures Rows(a + b, stringify, formatDate) == Rows(a, stringify, formatDate) + Rows(b, stringify, formatDate)
    decreases |b|
  {
    if b == [] {
      assert a + b == a;
    } else {
      assert (a + b)[..|a + b| - 1] == a + b[..|b| - 1];
      RowsAppend(a, b[..|b| - 1], stringify, formatDate);
    }
  }

  const HEADING := "## 文档信息\n"
  const TABLE_HEADER := "| 属性 | 值 |\n|---|---|\n"
  const FOOTER := "\n---\n"

  /** The Markdown for a list of kept attributes: nothing for none, else heading, table and rule. */
  function Document(kept: seq<Entry>, stringify: nat -> string, formatDate: Value -> string): (doc: string)
    ensures doc == "" <==> kept == []
    ensures kept != [] ==> StartsWith(doc, HEADING + TABLE_HEADER) && EndsWith(doc, FOOTER)
    ensures kept != [] ==> |HEADING + TABLE_HEADER| + |FOOTER| <= |doc|
    ensures kept != [] ==> doc[|HEADING + TABLE_HEADER|..|doc| - |FOOTER|] == Rows(kept, stringify, formatDate)
  {
    if kept == [] then ""
    else
      var rows := Rows(kept, stringify, formatDate);
      var body := HEADING + TABLE_HEADER + rows;
      assert (body + FOOTER)[..|HEADING + TABLE_HEADER|] == HEADING + TABLE_HEADER;
      assert (body + FOOTER)[|HEADING + TABLE_HEADER|..|body|] == rows;
      body + FOOTER
  }

  /**
    Lays out the kept attributes, building the table row by row as the source does: the
    result is the document of exactly these attributes.
   */
  method RenderTable(valid: seq<Entry>, stringify: nat -> string, formatDate: Value -> string) returns (out: string)
    ensures out == Document(valid, stringify, formatDate)
  {
    if |valid| == 0 {
      return "";
    }
    var table := TABLE_HEADER;
    for i := 0 to |valid|
      invariant table == TABLE_HEADER + Rows(valid[..i], stringify, formatDate)
    {
      var key := valid[i].key;
      var value := valid[i].value;
      if key == "created" || key == "updated" {
        value := Str(formatDate(value));
      }
      var row := "| " + Label(key) + " | " + SafeToString(value, stringify) + " |\n";
      assert row == Row(valid[i], stringify, formatDate);
      RowsExtend(valid, i, stringify, formatDate);
      AppendAssoc(TABLE_HEADER, Rows(valid[..i], stringify, formatDate), row);
      table := table + row;
    }
    assert valid[..|valid|] == valid;
    AppendAssoc(HEADING, TABLE_HEADER, Rows(valid, stringify, formatDate));
    out := HEADING + table + FOOTER;
  }

  /**
    Regrouping a concatenation. Dafny knows this; stating it at the two steps of
    `RenderTable` where it is needed keeps that proof small enough for the solver.
   */
  lemma AppendAssoc(a: string, b: string, c: string)
    ensures a + b + c == a + (b + c)
  {
  }

  /** The rows of a longer prefix add the row of the next attribute. */
  lemma RowsExtend(valid: seq<Entry>, i: nat, stringify: nat -> string, formatDate: Value -> string)
    requires i < |valid|
    ensures Rows(valid[..i + 1], stringify, formatDate) == Rows(valid[..i], stringify, formatDate) + Row(valid[i], stringify, formatDate)
  {
    assert valid[..i + 1][..i] == valid[..i];
  }

  /** Models `formatFrontMatterAsMarkdown(attributes)` of `front-matter.ts`. */
  method FormatFrontMatterAsMarkdown(entries: seq<Entry>, stringify: nat -> string, formatDate: Value -> string)
    returns (out: string)
    ensures out == Document(KeepEntries(entries, IsKept), stringify, formatDate)
    ensures out == "" <==> forall e :: e in entries ==> !IsKept(e)
  {
    var valid := KeepEntries(entries, IsKept);
    out := RenderTable(valid, stringify, formatDate);
    assert valid != [] ==> valid[0] in valid;
  }

  /**
    What one attribute contributes to the table: nothing when it is dropped, its own row
    otherwise. With `KeepEntriesAppend` and `RowsAppend` this gives one row per kept
    attribute, in the order of the attributes.
   */
  lemma RowOfOneEntry(e: Entry, keep: Entry -> bool, stringify: nat -> string, formatDate: Value -> string)
    ensures !keep(e) ==> Rows(KeepEntries([e], keep), stringify, formatDate) == ""
    ensures keep(e) ==> Rows(KeepEntries([e], keep), stringify, formatDate) == Row(e, stringify, formatDate)
  {
    assert [e][1..] == [];
    if keep(e) {
      assert KeepEntries([e], keep) == [e];
      assert [e][..0] == [];
    }
  }

  /** The rows of a list of attributes are the rows of its parts, each part filtered on its own. */
  lemma RowsOfEntriesAppend(a: seq<Entry>, b: seq<Entry>, keep: Entry -> bool,
                            stringify: nat -> string, formatDate: Value -> string)
    ensures Rows(KeepEntries(a + b, keep), stringify, formatDate)
         == Rows(KeepEntries(a, keep), stringify, formatDate) + Rows(KeepEntries(b, keep), stringify, formatDate)
  {
    KeepEntriesAppend(a, b, keep);
    RowsAppend(KeepEntries(a, keep), KeepEntries(b, keep), stringify, formatDate);
  }
}
