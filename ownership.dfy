/** The values the resolver produces and the parsing of an OWNERS file. */
module Ownership {
  import opened Text

  datatype Option<T> = None | Some(value: T)

  /** Who must approve: anyone at all, or one of a non-empty ordered list of users. */
  datatype Owners = Anyone | List(list: seq<string>)

  /** The owners that govern a file and the directory (module) whose OWNERS file decided them. */
  datatype OwnersResult = OwnersResult(owners: Owners, path: string)

  /** A cache entry: the parsed owners and the OWNERS file they were read from. */
  datatype OwnersData = OwnersData(owners: seq<string>, path: string)

  /** A line that names an owner: not blank and not a "#" comment. */
  predicate IsOwnerLine(line: string)
  {
    line != "" && !("#" <= line)
  }

  /** The owner lines of lines, in their order, duplicates kept. */
  function OwnerLines(lines: seq<string>): (owners: seq<string>)
    ensures |owners| <= |lines|
  {
    if lines == [] then []
    else (if IsOwnerLine(lines[0]) then [lines[0]] else []) + OwnerLines(lines[1..])
  }

  /** The owners listed by the decoded text of an OWNERS file. */
  function ParseOwners(text: string): seq<string>
  {
    OwnerLines(Split(text, '\n'))
  }

  /** Filtering distributes over concatenation, so it keeps the order of the lines. */
  lemma {:induction false} OwnerLinesAppend(a: seq<string>, b: seq<string>)
    ensures OwnerLines(a + b) == OwnerLines(a) + OwnerLines(b)
  {
    if a == [] {
      assert a + b == b;
    } else {
      var ab := a + b;
      assert ab[0] == a[0] && ab[1..] == a[1..] + b;
      OwnerLinesAppend(a[1..], b);
      var head := if IsOwnerLine(a[0]) then [a[0]] else [];
      calc {
        OwnerLines(ab);
        head + OwnerLines(a[1..] + b);
        head + (OwnerLines(a[1..]) + OwnerLines(b));
        (head + OwnerLines(a[1..])) + OwnerLines(b);
      }
    }
  }

  /** Each line occurs among the owners exactly as often as among the lines when it
      is an owner line, and never otherwise. */
  lemma {:induction false} OwnerLinesCount(lines: seq<string>, x: string)
    ensures multiset(OwnerLines(lines))[x] == if IsOwnerLine(x) then multiset(lines)[x] else 0
  {
    if lines != [] {
      var rest := lines[1..];
      OwnerLinesCount(rest, x);
      var head := if IsOwnerLine(lines[0]) then [lines[0]] else [];
      assert lines == [lines[0]] + rest;
      assert multiset(lines) == multiset([lines[0]]) + multiset(rest);
      assert multiset(OwnerLines(lines)) == multiset(head) + multiset(OwnerLines(rest));
    }
  }

  /** The parsed owners of a text: each is an owner line without a line break, and
      each owner line of the text occurs as often as in the text. */
  lemma ParseOwnersSpec(text: string)
    ensures forall i :: 0 <= i < |ParseOwners(text)| ==>
      IsOwnerLine(ParseOwners(text)[i]) && '\n' !in ParseOwners(text)[i]
    ensures forall x :: multiset(ParseOwners(text))[x] == (if IsOwnerLine(x) then multiset(Split(text, '\n'))[x] else 0)
  {
    var lines := Split(text, '\n');
    SplitPartsOmitSeparator(text, '\n');
    forall x ensures multiset(ParseOwners(text))[x] == if IsOwnerLine(x) then multiset(lines)[x] else 0 {
      OwnerLinesCount(lines, x);
    }
    forall i | 0 <= i < |ParseOwners(text)|
      ensures IsOwnerLine(ParseOwners(text)[i]) && '\n' !in ParseOwners(text)[i]
    {
      var y := ParseOwners(text)[i];
      assert y in multiset(ParseOwners(text));
      OwnerLinesCount(lines, y);
      assert y in multiset(lines);
    }
  }
}
