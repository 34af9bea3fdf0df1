/**
 * The two formatting rules of the exported report: the comorbidity cell
 * (the selected conditions joined with ", ", or "-" when none is selected)
 * and the download file name (Report_<HN>.html, with Unknown for an empty HN).
 */
module ReportFormat {

  /** The separator placed between list items. */
  const Separator: string := ", "

  /** What an empty list or a missing value is shown as. */
  const Placeholder: string := "-"

  /** The items joined with ", " between neighbours, "" for no items. */
  function Join(items: seq<string>): (r: string)
    ensures items == [] ==> r == ""
    ensures |items| == 1 ==> r == items[0]
    ensures |items| >= 2 ==> ',' in r
    ensures items != [] ==> |items[0]| <= |r| && r[..|items[0]|] == items[0]
  {
    if items == [] then ""
    else if |items| == 1 then items[0]
    else items[0] + Separator + Join(items[1..])
  }

  /** Joining builds the text left to right: one more item adds ", " and that item at the end. */
  lemma {:induction false} JoinSnoc(items: seq<string>, x: string)
    requires items != []
    ensures Join(items + [x]) == Join(items) + Separator + x
  {
    if |items| == 1 {
      assert items + [x] == [items[0], x];
      assert [items[0], x][1..] == [x];
    } else {
      JoinSnoc(items[1..], x);
      assert (items + [x])[1..] == items[1..] + [x];
    }
  }

  /** The number of characters in a joined list: the items plus two per separator. */
  lemma {:induction false} JoinLength(items: seq<string>)
    requires items != []
    ensures |Join(items)| == TotalLength(items) + 2 * (|items| - 1)
  {
    if |items| > 1 {
      JoinLength(items[1..]);
    }
  }

  /** The combined length of the items. */
  function TotalLength(items: seq<string>): nat
  {
    if items == [] then 0 else |items[0]| + TotalLength(items[1..])
  }

  /** The comorbidity cell of the report. */
  function ComorbidityCell(items: seq<string>): (cell: string)
    ensures items == [] ==> cell == Placeholder
    ensures |items| == 1 ==> cell == items[0]
    ensures cell == Placeholder <==> items == [] || items == [Placeholder]
  {
    if items != [] then Join(items) else Placeholder
  }

  /**
   * Splits a cell's text at each ',' and drops the space after it: the
   * inverse of Join for items with no comma in them.
   */
  function Split(s: string): (r: seq<string>)
    ensures |r| >= 1
    decreases |s|
  {
    if s == [] then [""]
    else if s[0] == ',' then [""] + Split(if |s| >= 2 then s[2..] else [])
    else
      var rest := Split(s[1..]);
      [[s[0]] + rest[0]] + rest[1..]
  }

  /** The list a comorbidity cell stands for. */
  function ParseCell(cell: string): seq<string>
  {
    if cell == Placeholder then [] else Split(cell)
  }

  /** Text with no comma in front of the rest: it becomes the start of the first field. */
  lemma {:induction false} SplitPrefix(a: string, rest: string)
    requires ',' !in a
    ensures Split(a + rest) == [a + Split(rest)[0]] + Split(rest)[1..]
  {
    if a != [] {
      assert (a + rest)[1..] == a[1..] + rest;
      assert a[0] in a;
      SplitPrefix(a[1..], rest);
      assert [a[0]] + (a[1..] + Split(rest)[0]) == a + Split(rest)[0];
    } else {
      var r := Split(rest);
      assert a + rest == rest;
      assert a + r[0] == r[0];
      assert r == [r[0]] + r[1..];
    }
  }

  /** Joining comma-free items and splitting the text again gives the items back. */
  lemma {:induction false} SplitJoin(items: seq<string>)
    requires items != []
    requires forall i :: 0 <= i < |items| ==> ',' !in items[i]
    ensures Split(Join(items)) == items
  {
    if |items| == 1 {
      SplitPrefix(items[0], "");
      assert items[0] + "" == items[0];
    } else {
      var tail := Join(items[1..]);
      SplitJoin(items[1..]);
      assert items[0] + Separator + tail == items[0] + (Separator + tail);
      SplitPrefix(items[0], Separator + tail);
      assert (Separator + tail)[2..] == tail;
      assert Split(Separator + tail) == [""] + items[1..];
      assert items[0] + "" == items[0];
    }
  }

  /**
   * The comorbidity cell loses nothing: for items with no comma that are
   * not themselves "-", the list can be read back from the cell.
   */
  lemma CellRoundTrip(items: seq<string>)
    requires forall i :: 0 <= i < |items| ==> ',' !in items[i] && items[i] != Placeholder
    ensures ParseCell(ComorbidityCell(items)) == items
  {
    if items != [] {
      SplitJoin(items);
    }
  }

  const FilePrefix: string := "Report_"
  const FileSuffix: string := ".html"
  const UnknownHn: string := "Unknown"

  /** The name offered for the downloaded report. */
  function ReportFileName(hn: string): (name: string)
    ensures |name| == |FilePrefix| + |FileSuffix| + (if hn == "" then |UnknownHn| else |hn|)
    ensures name[..|FilePrefix|] == FilePrefix
    ensures name[|name| - |FileSuffix|..] == FileSuffix
  {
    FilePrefix + (if hn != "" then hn else UnknownHn) + FileSuffix
  }

  /** The patient identifier a report file name carries, if it has the report shape. */
  function FileNameHn(name: string): (hn: string)
  {
    if |name| >= |FilePrefix| + |FileSuffix| then name[|FilePrefix|..|name| - |FileSuffix|] else ""
  }

  /** The HN can be read back from the file name; an empty HN reads back as "Unknown". */
  lemma FileNameRoundTrip(hn: string)
    ensures FileNameHn(ReportFileName(hn)) == if hn == "" then UnknownHn else hn
  {
    var shown := if hn != "" then hn else UnknownHn;
    var name := ReportFileName(hn);
    assert name == FilePrefix + shown + FileSuffix;
    assert name[|FilePrefix|..|name| - |FileSuffix|] == shown;
  }

  /** Two patients get the same file name exactly when their HNs agree, or one is empty and the other "Unknown". */
  lemma FileNameCollisions(a: string, b: string)
    ensures ReportFileName(a) == ReportFileName(b) <==>
      a == b || (a == "" && b == UnknownHn) || (a == UnknownHn && b == "")
  {
    if ReportFileName(a) == ReportFileName(b) {
      FileNameRoundTrip(a);
      FileNameRoundTrip(b);
    }
  }
}
