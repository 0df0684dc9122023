/**
 * Rendering a JSON-like record as an HTML table, `convertObjectToHTMLTable`
 * and `convertObjectArrayToHTMLTable` (index.js:187-224).
 */
module HtmlTable {
  import Seqs

  /** A record: a primitive (held as the text `String(x)` gives for it) or an
      object with its keys in `Object.keys` order (integer-like keys first,
      ascending, then the other keys in insertion order). */
  datatype Value = Prim(text: string) | Obj(fields: seq<(string, Value)>)

  /** `<name style="style">` */
  function OpenTag(name: string, style: string): string {
    "<" + name + " style=\"" + style + "\">"
  }

  /** `</name>` */
  function CloseTag(name: string): string {
    "</" + name + ">"
  }

  const TableOpen: string := OpenTag("table", "border: 1px solid #ddd; " + "border-collapse: collapse;")
  const TableClose: string := CloseTag("table")
  const RowOpen: string := OpenTag("tr", "border: 1px solid grey;")
  const RowClose: string := CloseTag("tr")
  const CellOpen: string := OpenTag("td", "border: 1px solid grey; padding: 5px;")
  const CellClose: string := CloseTag("td")

  function Cell(content: string): string {
    CellOpen + content + CellClose
  }

  /** One key/value row. */
  function Row(key: string, value: string): string {
    RowOpen + Cell(key) + Cell(value) + RowClose
  }

  /** The rendering of a record: a primitive prints as its text, an object
      without keys as "", any other object as a table with one row per key. */
  function Table(v: Value): string
    decreases v, 1
  {
    match v
    case Prim(s) => s
    case Obj(fs) => if fs == [] then "" else TableOpen + Rows(v, |fs|) + TableClose
  }

  /** The rows of the first `n` keys of object `v`, nested objects rendered recursively. */
  function Rows(v: Value, n: nat): string
    requires v.Obj? && n <= |v.fields|
    decreases v, 0, n
  {
    if n == 0 then ""
    else Rows(v, n - 1) + Row(v.fields[n - 1].0, Table(v.fields[n - 1].1))
  }

  /** The rendering of an array of records: the renderings one after the other. */
  function Tables(vs: seq<Value>): string {
    if vs == [] then "" else Tables(vs[..|vs| - 1]) + Table(vs[|vs| - 1])
  }

  // ---------------------------------------------------------------------------
  // Properties of the rendering

  /** A primitive renders as its text; an object without keys renders as "". */
  lemma TableOfLeaves(s: string)
    ensures Table(Prim(s)) == s
    ensures Table(Obj([])) == ""
  {
  }

  /** The first `j` rows are a prefix of the first `n` rows. */
  lemma {:induction false} RowsPrefix(v: Value, j: nat, n: nat)
    requires v.Obj? && j <= n <= |v.fields|
    ensures Rows(v, j) <= Rows(v, n)
    decreases n
  {
    if j < n {
      RowsPrefix(v, j, n - 1);
    }
  }

  /** A non-empty object renders as one table: the opening tag, then the row of
      key k at the offset where the rows of keys 0..k-1 end, then the closing
      tag. So the rows appear in key order, each once. */
  lemma {:induction false} TableOfObject(fs: seq<(string, Value)>, k: nat)
    requires k < |fs|
    ensures TableOpen <= Table(Obj(fs))
    ensures Table(Obj(fs))[|Table(Obj(fs))| - |TableClose|..] == TableClose
    ensures var row := Row(fs[k].0, Table(fs[k].1));
      && |TableOpen| + |Rows(Obj(fs), k)| + |row| <= |Table(Obj(fs))|
      && Table(Obj(fs))[|TableOpen| + |Rows(Obj(fs), k)|..][..|row|] == row
  {
    var v := Obj(fs);
    var all := Rows(v, |fs|);
    assert Table(v) == TableOpen + all + TableClose;
    assert Rows(v, k + 1) == Rows(v, k) + Row(fs[k].0, Table(fs[k].1));
    RowsPrefix(v, k + 1, |fs|);
    Framed(TableOpen, all, TableClose);
    SliceOfInfix(TableOpen, all, TableClose, Rows(v, k), Row(fs[k].0, Table(fs[k].1)));
  }

  /** `pre + mid + post` starts with `pre` and ends with `post`. */
  lemma Framed(pre: string, mid: string, post: string)
    ensures pre <= pre + mid + post
    ensures (pre + mid + post)[|pre + mid + post| - |post|..] == post
  {
    var t := pre + mid + post;
    assert t[..|pre|] == pre;
    assert t == (pre + mid) + post;
  }

  /** A piece that follows `before` inside the middle part of `pre + all + post`
      sits right after `pre + before`. */
  lemma SliceOfInfix(pre: string, all: string, post: string, before: string, piece: string)
    requires before + piece <= all
    ensures |pre| + |before| + |piece| <= |pre + all + post|
    ensures (pre + all + post)[|pre| + |before|..][..|piece|] == piece
  {
    var t := pre + all + post;
    forall i | 0 <= i < |piece|
      ensures t[|pre| + |before|..][..|piece|][i] == piece[i]
    {
      assert t[|pre| + |before| + i] == all[|before| + i];
      assert all[|before| + i] == (before + piece)[|before| + i];
    }
  }

  /** The array rendering of two consecutive parts is the two renderings
      concatenated; in particular `[o1, o2]` renders as `o1`'s table then `o2`'s. */
  lemma {:induction false} TablesAppend(a: seq<Value>, b: seq<Value>)
    ensures Tables(a + b) == Tables(a) + Tables(b)
    decreases |b|
  {
    if b == [] {
      assert a + b == a;
    } else {
      var b0 := b[..|b| - 1];
      assert (a + b)[..|a + b| - 1] == a + b0;
      assert (a + b)[|a + b| - 1] == b[|b| - 1];
      TablesAppend(a, b0);
      Seqs.AppendAssoc(Tables(a), Tables(b0), Table(b[|b| - 1]));
    }
  }

  lemma TablesPair(o1: Value, o2: Value)
    ensures Tables([o1, o2]) == Table(o1) + Table(o2)
  {
    assert [o1, o2][..1] == [o1];
    assert [o1][..0] == [];
    assert Tables([o1]) == "" + Table(o1) == Table(o1);
  }

  // Counting rows: the number of "<tr" tags in the output.

  /** Occurrences of "<tr" in a string. */
  function RowTags(s: string): nat {
    if |s| < 3 then 0
    else (if s[0] == '<' && s[1] == 't' && s[2] == 'r' then 1 else 0) + RowTags(s[1..])
  }

  /** Neither of the last two characters opens a tag, so no "<tr" can straddle
      the end of the string. */
  predicate NoTagTail(s: string) {
    forall j :: 0 <= j < |s| && |s| - 2 <= j ==> s[j] != '<'
  }

  lemma {:induction false} RowTagsAppend(a: string, b: string)
    requires NoTagTail(a)
    ensures RowTags(a + b) == RowTags(a) + RowTags(b)
    ensures NoTagTail(b) ==> NoTagTail(a + b)
    decreases |a|
  {
    if a == [] {
      assert a + b == b;
    } else {
      assert (a + b)[1..] == a[1..] + b;
      RowTagsAppend(a[1..], b);
      if |a| < 3 {
        assert a[0] != '<';
      }
    }
  }

  lemma {:induction false} NoOpeningNoTags(s: string)
    requires '<' !in s
    ensures RowTags(s) == 0 && NoTagTail(s)
    decreases |s|
  {
    if |s| >= 3 {
      NoOpeningNoTags(s[1..]);
    }
  }

  /** A piece that starts a tag and has no other '<': it holds a "<tr"
      exactly when it starts with one, and it cannot end inside a tag. */
  lemma TagPiece(s: string)
    requires |s| >= 3 && s[0] == '<' && '<' !in s[1..]
    ensures RowTags(s) == (if s[1] == 't' && s[2] == 'r' then 1 else 0)
    ensures NoTagTail(s)
  {
    NoOpeningNoTags(s[1..]);
    forall j | 0 <= j < |s| && |s| - 2 <= j
      ensures s[j] != '<'
    {
      assert s[j] == s[1..][j - 1];
    }
  }

  lemma OpenTagTags(name: string, style: string)
    requires |name| >= 2 && '<' !in name && '<' !in style
    ensures RowTags(OpenTag(name, style)) == (if name[0] == 't' && name[1] == 'r' then 1 else 0)
    ensures NoTagTail(OpenTag(name, style))
  {
    var s := OpenTag(name, style);
    assert s[1..] == name + " style=\"" + style + "\">";
    TagPiece(s);
  }

  lemma CloseTagTags(name: string)
    requires '<' !in name
    ensures RowTags(CloseTag(name)) == 0 && NoTagTail(CloseTag(name))
  {
    var s := CloseTag(name);
    assert s[1..] == "/" + name + ">";
    TagPiece(s);
  }

  /** Only the row opening tag contains "<tr"; no fixed piece ends inside a tag. */
  lemma FixedPieces()
    ensures RowTags(RowOpen) == 1 && NoTagTail(RowOpen)
    ensures RowTags(TableOpen) == 0 && NoTagTail(TableOpen)
    ensures RowTags(TableClose) == 0 && NoTagTail(TableClose)
    ensures RowTags(CellOpen) == 0 && NoTagTail(CellOpen)
    ensures RowTags(CellClose) == 0 && NoTagTail(CellClose)
    ensures RowTags(RowClose) == 0 && NoTagTail(RowClose)
  {
    RowOpenTags();
    TableOpenTags();
    CellOpenTags();
    CloseTagTags("table");
    CloseTagTags("tr");
    CloseTagTags("td");
  }

  lemma RowOpenTags()
    ensures RowTags(RowOpen) == 1 && NoTagTail(RowOpen)
  {
    OpenTagTags("tr", "border: 1px solid grey;");
  }

  lemma TableOpenTags()
    ensures RowTags(TableOpen) == 0 && NoTagTail(TableOpen)
  {
    OpenTagTags("table", "border: 1px solid #ddd; " + "border-collapse: collapse;");
  }

  lemma CellOpenTags()
    ensures RowTags(CellOpen) == 0 && NoTagTail(CellOpen)
  {
    OpenTagTags("td", "border: 1px solid grey; padding: 5px;");
  }

  lemma CellTags(content: string)
    requires NoTagTail(content)
    ensures RowTags(Cell(content)) == RowTags(content) && NoTagTail(Cell(content))
  {
    FixedPieces();
    RowTagsAppend(CellOpen, content);
    RowTagsAppend(CellOpen + content, CellClose);
  }

  lemma RowTagsOfRow(key: string, value: string)
    requires '<' !in key && NoTagTail(value)
    ensures RowTags(Row(key, value)) == 1 + RowTags(value) && NoTagTail(Row(key, value))
  {
    FixedPieces();
    NoOpeningNoTags(key);
    CellTags(key);
    CellTags(value);
    RowTagsAppend(RowOpen, Cell(key));
    RowTagsAppend(RowOpen + Cell(key), Cell(value));
    RowTagsAppend(RowOpen + Cell(key) + Cell(value), RowClose);
  }

  /** No key and no primitive text contains '<'. */
  predicate Clean(v: Value)
    decreases v
  {
    match v
    case Prim(s) => '<' !in s
    case Obj(fs) => forall i :: 0 <= i < |fs| ==> '<' !in fs[i].0 && Clean(fs[i].1)
  }

  /** Number of keys in a record, nested objects included. */
  function KeyCount(v: Value): nat
    decreases v, 1
  {
    match v
    case Prim(_) => 0
    case Obj(fs) => KeysIn(v, |fs|)
  }

  /** Number of keys among the first `n` fields of object `v` and below them. */
  function KeysIn(v: Value, n: nat): nat
    requires v.Obj? && n <= |v.fields|
    decreases v, 0, n
  {
    if n == 0 then 0 else KeysIn(v, n - 1) + 1 + KeyCount(v.fields[n - 1].1)
  }

  /** When no key or primitive contains '<', the rendering holds exactly one
      "<tr" per key of the record, nested keys included: one row per key. */
  lemma {:induction false} TableRowTags(v: Value)
    requires Clean(v)
    ensures RowTags(Table(v)) == KeyCount(v) && NoTagTail(Table(v))
    decreases v, 1
  {
    match v
    case Prim(s) =>
      NoOpeningNoTags(s);
    case Obj(fs) =>
      if fs != [] {
        var rows := Rows(v, |fs|);
        RowsRowTags(v, |fs|);
        FixedPieces();
        RowTagsAppend(TableOpen, rows);
        RowTagsAppend(TableOpen + rows, TableClose);
      }
  }

  lemma {:induction false} RowsRowTags(v: Value, n: nat)
    requires v.Obj? && n <= |v.fields| && Clean(v)
    ensures RowTags(Rows(v, n)) == KeysIn(v, n) && NoTagTail(Rows(v, n))
    decreases v, 0, n
  {
    if n > 0 {
      var (key, child) := v.fields[n - 1];
      RowsRowTags(v, n - 1);
      TableRowTags(child);
      RowTagsOfRow(key, Table(child));
      RowTagsAppend(Rows(v, n - 1), Row(key, Table(child)));
    }
  }

  /** A flat object (primitive values only) renders with exactly one "<tr"
      per key. */
  lemma FlatObjectRows(fs: seq<(string, Value)>)
    requires forall i :: 0 <= i < |fs| ==> fs[i].1.Prim? && '<' !in fs[i].0 && '<' !in fs[i].1.text
    ensures RowTags(Table(Obj(fs))) == |fs|
  {
    var v := Obj(fs);
    TableRowTags(v);
    FlatKeys(v, |fs|);
  }

  lemma {:induction false} FlatKeys(v: Value, n: nat)
    requires v.Obj? && n <= |v.fields|
    requires forall i :: 0 <= i < |v.fields| ==> v.fields[i].1.Prim?
    ensures KeysIn(v, n) == n
  {
    if n > 0 {
      FlatKeys(v, n - 1);
    }
  }

  // ---------------------------------------------------------------------------
  // The loops of the source

  lemma RowSteps(html: string, key: string, value: string)
    ensures html + RowOpen + Cell(key) + Cell(value) + RowClose == html + Row(key, value)
  {
    Seqs.AppendAssoc(html, RowOpen, Cell(key));
    Seqs.AppendAssoc(html, RowOpen + Cell(key), Cell(value));
    Seqs.AppendAssoc(html, RowOpen + Cell(key) + Cell(value), RowClose);
  }

  /** `convertObjectToHTMLTable`: renders a record, appending row by row. */
  method ConvertObjectToHTMLTable(obj: Value) returns (html: string)
    ensures html == Table(obj)
    decreases obj
  {
    match obj
    case Prim(s) =>
      html := s;
    case Obj(fs) =>
      if |fs| > 0 {
        html := TableOpen;
        var i := 0;
        while i < |fs|
          invariant 0 <= i <= |fs|
          invariant html == TableOpen + Rows(obj, i)
        {
          var item := fs[i].1;
          var value: string;
          if item.Obj? {
            value := ConvertObjectToHTMLTable(item);
          } else {
            value := item.text;
          }
          ghost var html0 := html;
          html := html + RowOpen;
          html := html + Cell(fs[i].0);
          html := html + Cell(value);
          html := html + RowClose;
          RowSteps(html0, fs[i].0, value);
          Seqs.AppendAssoc(TableOpen, Rows(obj, i), Row(fs[i].0, value));
          i := i + 1;
        }
        html := html + TableClose;
      } else {
        html := "";
      }
  }

  /** `convertObjectArrayToHTMLTable`: renders each record in turn. */
  method ConvertObjectArrayToHTMLTable(records: seq<Value>) returns (html: string)
    ensures html == Tables(records)
  {
    html := "";
    var i := 0;
    while i < |records|
      invariant 0 <= i <= |records|
      invariant html == Tables(records[..i])
    {
      var table := ConvertObjectToHTMLTable(records[i]);
      assert records[..i + 1][..i] == records[..i];
      html := html + table;
      i := i + 1;
    }
    assert records[..i] == records;
  }
}
