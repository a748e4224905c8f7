/** The comment formatters of src/CommentFormatter.ts: each folds a list of
    (module path, users) entries into one markdown string, a bullet list or the
    rows of a table. */
module CommentFormatter {
  import opened Text

  /** PathUserData: a module and the users whose approval it needs. */
  datatype PathUserData = PathUserData(path: string, users: seq<string>)

  /** The text of one bullet: an array interpolated into a template literal prints
      its elements separated by ",". */
  function SimpleRow(d: PathUserData): string
  {
    "- " + d.path + ": " + Join(d.users, ",")
  }

  /** One bullet line. */
  function SimpleLine(d: PathUserData): string
  {
    SimpleRow(d) + "\n"
  }

  /** SimpleCommentFormatter.format: a reduce from "" that appends one bullet line
      per entry. */
  function SimpleFormat(data: seq<PathUserData>): string
    decreases |data|
  {
    if data == [] then "" else SimpleFormat(data[..|data| - 1]) + SimpleLine(data[|data| - 1])
  }

  /** The bullets of data, in order. */
  function SimpleRows(data: seq<PathUserData>): (rows: seq<string>)
    ensures |rows| == |data|
    ensures forall i :: 0 <= i < |data| ==> rows[i] == SimpleRow(data[i])
  {
    seq(|data|, i requires 0 <= i < |data| => SimpleRow(data[i]))
  }

  /** Formatting a concatenation is concatenating the formats. */
  lemma {:induction false} SimpleFormatAppend(a: seq<PathUserData>, b: seq<PathUserData>)
    ensures SimpleFormat(a + b) == SimpleFormat(a) + SimpleFormat(b)
    decreases |b|
  {
    if b == [] {
      assert a + b == a;
    } else {
      var ab := a + b;
      var front := b[..|b| - 1];
      assert ab[..|ab| - 1] == a + front;
      assert ab[|ab| - 1] == b[|b| - 1];
      SimpleFormatAppend(a, front);
      assert SimpleFormat(ab) == SimpleFormat(a + front) + SimpleLine(b[|b| - 1]);
      assert SimpleFormat(b) == SimpleFormat(front) + SimpleLine(b[|b| - 1]);
      Assoc(SimpleFormat(a), SimpleFormat(front), SimpleLine(b[|b| - 1]));
    }
  }

  lemma Assoc<T>(x: seq<T>, y: seq<T>, z: seq<T>)
    ensures (x + y) + z == x + (y + z)
  {
  }

  /** The first entry gives the first line. */
  lemma SimpleFormatCons(d: PathUserData, rest: seq<PathUserData>)
    ensures SimpleFormat([d] + rest) == SimpleLine(d) + SimpleFormat(rest)
  {
    SimpleFormatAppend([d], rest);
    assert [d][..0] == [];
  }

  /** The comment is its bullets, each ended by a line break: joined with "\n"
      after an empty last piece. An empty input gives "". */
  lemma {:induction false} SimpleFormatJoin(data: seq<PathUserData>)
    ensures SimpleFormat(data) == Join(SimpleRows(data) + [""], "\n")
    decreases |data|
  {
    if data != [] {
      SimpleFormatCons(data[0], data[1..]);
      assert [data[0]] + data[1..] == data;
      SimpleFormatJoin(data[1..]);
      var rows := SimpleRows(data) + [""];
      SimpleRowsTail(data);
      TailAppend(SimpleRows(data), "");
      assert rows[0] == SimpleRow(data[0]);
      assert Join(rows, "\n") == rows[0] + "\n" + Join(rows[1..], "\n");
    }
  }

  lemma SimpleRowsTail(data: seq<PathUserData>)
    requires data != []
    ensures SimpleRows(data)[1..] == SimpleRows(data[1..])
  {
    var r := SimpleRows(data)[1..];
    assert forall i :: 0 <= i < |r| ==> r[i] == SimpleRow(data[1..][i]);
  }

  lemma TailAppend<T>(s: seq<T>, y: T)
    requires s != []
    ensures (s + [y])[1..] == s[1..] + [y]
  {
  }

  /** When no path or user contains a line break, splitting the comment at line
      breaks gives back one bullet per entry, in input order, then "". */
  lemma SimpleFormatLines(data: seq<PathUserData>)
    requires forall i :: 0 <= i < |data| ==> '\n' !in SimpleRow(data[i])
    ensures Split(SimpleFormat(data), '\n') == SimpleRows(data) + [""]
  {
    SimpleFormatJoin(data);
    RowsOmitNewline(data);
    SplitJoin(SimpleRows(data) + [""], '\n');
  }

  lemma RowsOmitNewline(data: seq<PathUserData>)
    requires forall i :: 0 <= i < |data| ==> '\n' !in SimpleRow(data[i])
    ensures forall i :: 0 <= i < |data| + 1 ==> '\n' !in (SimpleRows(data) + [""])[i]
  {
    var rows := SimpleRows(data) + [""];
    forall i | 0 <= i < |rows| ensures '\n' !in rows[i] {
      if i < |data| {
        assert rows[i] == SimpleRow(data[i]);
      }
    }
  }

  /** The separator the table cells put between users. */
  const Br: string := "<br>"

  /** Every entry names at least one user: reduce with no initial value throws on
      an empty array. */
  predicate AllHaveUsers(data: seq<PathUserData>)
  {
    forall i :: 0 <= i < |data| ==> data[i].users != []
  }

  /** The table cell as src/CommentFormatter.ts writes it:
      users.reduce((prev, curr) => prev + curr + "<br>") with no initial value. */
  function ReducedCell(users: seq<string>): string
    requires users != []
    decreases |users|
  {
    if |users| == 1 then users[0] else ReducedCell(users[..|users| - 1]) + users[|users| - 1] + Br
  }

  /** The table cell as evidently intended: the users separated by "<br>". */
  function TableCell(users: seq<string>): string
  {
    Join(users, Br)
  }

  /** The text of one table row. */
  function TableLine(path: string, cell: string): string
  {
    "| " + path + " | " + cell + " |"
  }

  /** One row of the table. */
  function TableRow(path: string, cell: string): string
  {
    TableLine(path, cell) + "\n"
  }

  /** TableCommentFormatter.format as written: a reduce from "" that appends one
      row per entry, no header row. */
  function TableFormatAsWritten(data: seq<PathUserData>): string
    requires AllHaveUsers(data)
    decreases |data|
  {
    if data == [] then ""
    else
      var d := data[|data| - 1];
      TableFormatAsWritten(data[..|data| - 1]) + TableRow(d.path, ReducedCell(d.users))
  }

  /** TableCommentFormatter.format with the intended cells. */
  function TableFormat(data: seq<PathUserData>): string
    requires AllHaveUsers(data)
    decreases |data|
  {
    if data == [] then ""
    else
      var d := data[|data| - 1];
      TableFormat(data[..|data| - 1]) + TableRow(d.path, TableCell(d.users))
  }

  /** The table as written distributes over concatenation. */
  lemma {:induction false} TableFormatAsWrittenAppend(a: seq<PathUserData>, b: seq<PathUserData>)
    requires AllHaveUsers(a) && AllHaveUsers(b)
    ensures AllHaveUsers(a + b)
    ensures TableFormatAsWritten(a + b) == TableFormatAsWritten(a) + TableFormatAsWritten(b)
    decreases |b|
  {
    var ab := a + b;
    assert forall i :: 0 <= i < |ab| ==> ab[i] in a || ab[i] in b;
    if b == [] {
      assert ab == a;
    } else {
      assert ab[..|ab| - 1] == a + b[..|b| - 1];
      assert ab[|ab| - 1] == b[|b| - 1];
      TableFormatAsWrittenAppend(a, b[..|b| - 1]);
      var d := b[|b| - 1];
      Assoc(TableFormatAsWritten(a), TableFormatAsWritten(b[..|b| - 1]), TableRow(d.path, ReducedCell(d.users)));
    }
  }

  /** The intended table distributes over concatenation. */
  lemma {:induction false} TableFormatAppend(a: seq<PathUserData>, b: seq<PathUserData>)
    requires AllHaveUsers(a) && AllHaveUsers(b)
    ensures AllHaveUsers(a + b)
    ensures TableFormat(a + b) == TableFormat(a) + TableFormat(b)
    decreases |b|
  {
    var ab := a + b;
    assert forall i :: 0 <= i < |ab| ==> ab[i] in a || ab[i] in b;
    if b == [] {
      assert ab == a;
    } else {
      assert ab[..|ab| - 1] == a + b[..|b| - 1];
      assert ab[|ab| - 1] == b[|b| - 1];
      TableFormatAppend(a, b[..|b| - 1]);
      var d := b[|b| - 1];
      Assoc(TableFormat(a), TableFormat(b[..|b| - 1]), TableRow(d.path, TableCell(d.users)));
    }
  }

  /** The first entry gives the first row of the table as written. */
  lemma TableFormatAsWrittenCons(d: PathUserData, rest: seq<PathUserData>)
    requires d.users != [] && AllHaveUsers(rest)
    ensures AllHaveUsers([d] + rest)
    ensures TableFormatAsWritten([d] + rest) == TableRow(d.path, ReducedCell(d.users)) + TableFormatAsWritten(rest)
  {
    TableFormatAsWrittenAppend([d], rest);
    assert [d][..0] == [];
  }

  /** The rows of the table as written, in order. */
  function TableLinesAsWritten(data: seq<PathUserData>): (rows: seq<string>)
    requires AllHaveUsers(data)
    ensures |rows| == |data|
    ensures forall i :: 0 <= i < |data| ==> rows[i] == TableLine(data[i].path, ReducedCell(data[i].users))
  {
    seq(|data|, i requires 0 <= i < |data| => TableLine(data[i].path, ReducedCell(data[i].users)))
  }

  lemma TableLinesTail(data: seq<PathUserData>)
    requires data != [] && AllHaveUsers(data)
    ensures AllHaveUsers(data[1..])
    ensures TableLinesAsWritten(data)[1..] == TableLinesAsWritten(data[1..])
  {
    assert forall i :: 0 <= i < |data| - 1 ==> data[1..][i] == data[i + 1];
    var r := TableLinesAsWritten(data)[1..];
    assert forall i :: 0 <= i < |r| ==> r[i] == TableLine(data[1..][i].path, ReducedCell(data[1..][i].users));
  }

  /** The table as written is one "| path | cell |" row per entry, in input
      order, each ended by a line break and with no header row: its rows joined
      with "\n" after an empty last piece. An empty input gives "". */
  lemma {:induction false} TableFormatAsWrittenJoin(data: seq<PathUserData>)
    requires AllHaveUsers(data)
    ensures TableFormatAsWritten(data) == Join(TableLinesAsWritten(data) + [""], "\n")
    decreases |data|
  {
    if data != [] {
      TableLinesTail(data);
      TableFormatAsWrittenCons(data[0], data[1..]);
      assert [data[0]] + data[1..] == data;
      TableFormatAsWrittenJoin(data[1..]);
      var rows := TableLinesAsWritten(data) + [""];
      TailAppend(TableLinesAsWritten(data), "");
      assert rows[0] == TableLine(data[0].path, ReducedCell(data[0].users));
      assert Join(rows, "\n") == rows[0] + "\n" + Join(rows[1..], "\n");
    }
  }

  /** Joining one more piece adds the separator and the piece. */
  lemma {:induction false} JoinSnoc(s: seq<string>, x: string, sep: string)
    requires s != []
    ensures Join(s + [x], sep) == Join(s, sep) + sep + x
    decreases |s|
  {
    var sx := s + [x];
    if |s| == 1 {
      assert sx[1..] == [x];
    } else {
      assert sx[1..] == s[1..] + [x];
      JoinSnoc(s[1..], x, sep);
      calc {
        Join(sx, sep);
        s[0] + sep + Join(s[1..] + [x], sep);
        s[0] + sep + (Join(s[1..], sep) + sep + x);
        { Assoc(s[0] + sep, Join(s[1..], sep) + sep, x);
          Assoc(s[0] + sep, Join(s[1..], sep), sep); }
        s[0] + sep + Join(s[1..], sep) + sep + x;
      }
    }
  }

  /** The cell as written, for two users or more: the first user, the others each
      followed by "<br>", and no separator after the first. */
  lemma {:induction false} ReducedCellClosedForm(users: seq<string>)
    requires |users| >= 2
    ensures ReducedCell(users) == users[0] + Join(users[1..], Br) + Br
    decreases |users|
  {
    var n := |users|;
    var front := users[..n - 1];
    assert ReducedCell(users) == ReducedCell(front) + users[n - 1] + Br;
    if n == 2 {
      assert front == [users[0]];
      assert users[1..] == [users[1]];
    } else {
      ReducedCellClosedForm(front);
      assert front[0] == users[0];
      assert users[1..] == front[1..] + [users[n - 1]];
      JoinSnoc(front[1..], users[n - 1], Br);
      calc {
        ReducedCell(users);
        users[0] + Join(front[1..], Br) + Br + users[n - 1] + Br;
        { Assoc(users[0], Join(front[1..], Br) + Br, users[n - 1]);
          Assoc(users[0], Join(front[1..], Br), Br); }
        users[0] + (Join(front[1..], Br) + Br + users[n - 1]) + Br;
        users[0] + Join(users[1..], Br) + Br;
      }
    }
  }

  /** The cell as written glues the first two users together: two different
      pairs of users print the same cell, and two users get no separator
      between them. */
  lemma ReducedCellMerges()
    ensures ReducedCell(["ab", "c"]) == ReducedCell(["a", "bc"]) == "abc<br>"
    ensures ReducedCell(["a", "b"]) == "ab<br>" != TableCell(["a", "b"])
  {
    assert ["ab", "c"][..1] == ["ab"];
    assert ["a", "bc"][..1] == ["a"];
    assert ["a", "b"][..1] == ["a"];
    assert TableCell(["a", "b"]) == "a<br>b";
  }

  /** Index of the first '<' in s, or |s| when there is none. */
  function FirstLt(s: string): (i: nat)
    ensures i <= |s|
  {
    if s == [] then 0 else if s[0] == '<' then 0 else 1 + FirstLt(s[1..])
  }

  lemma {:induction false} FirstLtAfterPlain(h: string, t: string)
    requires '<' !in h
    ensures FirstLt(h + t) == |h| + FirstLt(t)
    decreases |h|
  {
    if h != [] {
      assert h[0] in h;
      assert forall c :: c in h[1..] ==> c in h;
      assert (h + t)[1..] == h[1..] + t;
      FirstLtAfterPlain(h[1..], t);
    } else {
      assert h + t == t;
    }
  }

  /** In a cell of users without '<', the first user ends at the first '<', and
      only a single user fills the whole cell. */
  lemma CellHead(users: seq<string>)
    requires users != []
    requires forall i :: 0 <= i < |users| ==> '<' !in users[i]
    ensures FirstLt(TableCell(users)) == |users[0]|
    ensures users[0] <= TableCell(users)
    ensures |users| == 1 <==> |TableCell(users)| == |users[0]|
    ensures |users| > 1 ==> TableCell(users)[|users[0]| + |Br|..] == TableCell(users[1..])
  {
    if |users| == 1 {
      FirstLtAfterPlain(users[0], "");
      assert users[0] + "" == users[0];
    } else {
      var rest := Br + TableCell(users[1..]);
      assert TableCell(users) == users[0] + rest;
      FirstLtAfterPlain(users[0], rest);
    }
  }

  /** The intended cell loses no information: users without '<' (as logins are)
      can be read back from it. */
  lemma {:induction false} TableCellInjective(a: seq<string>, b: seq<string>)
    requires a != [] && b != []
    requires forall i :: 0 <= i < |a| ==> '<' !in a[i]
    requires forall i :: 0 <= i < |b| ==> '<' !in b[i]
    requires TableCell(a) == TableCell(b)
    ensures a == b
    decreases |a|
  {
    var s := TableCell(a);
    CellHead(a);
    CellHead(b);
    assert a[0] == s[..|a[0]|] == b[0];
    if |a| > 1 {
      assert forall i :: 0 <= i < |a| - 1 ==> a[1..][i] == a[i + 1];
      assert forall i :: 0 <= i < |b| - 1 ==> b[1..][i] == b[i + 1];
      TableCellInjective(a[1..], b[1..]);
      assert a == [a[0]] + a[1..];
      assert b == [b[0]] + b[1..];
    }
  }
}
