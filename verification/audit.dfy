/**
 The audit trail of audit.py. An entry keeps the values `log` receives; the
 line written to the log file is derived from it by `Line`, and the file
 itself is the concatenation of the lines in write order.
 */
module Audit {
  import opened Base
  import Text

  /** One call of `log`: the timestamp it stamps, the action, the key id, the optional application and the outcome. */
  datatype Entry = Entry(timestamp: string, action: string, keyId: string, app: Option<string>, success: bool)

  const Separator: string := " | "

  /** The status column. */
  function Status(success: bool): (s: string)
    ensures s == "SUCCESS" <==> success
    ensures s == "SUCCESS" || s == "DENIED"
  {
    if success then "SUCCESS" else "DENIED"
  }

  /** The application column: the name, or the placeholder when the name is absent or empty. */
  function AppColumn(app: Option<string>): (col: string)
    ensures app.None? || app.value == "" ==> col == "None"
    ensures app.Some? && app.value != "" ==> col == app.value
  {
    if app.Some? && app.value != "" then app.value else "None"
  }

  /** The five columns of an entry, in file order. */
  function Columns(e: Entry): seq<string> {
    [e.timestamp, e.action, e.keyId, AppColumn(e.app), Status(e.success)]
  }

  /** The text `log` appends to the file for an entry. */
  function Line(e: Entry): (line: string)
    ensures |line| > 0 && line[|line| - 1] == '\n'
    ensures |e.timestamp| + 3 <= |line| && line[..|e.timestamp| + 3] == e.timestamp + Separator
    ensures var status := Status(e.success) + "\n"; |status| <= |line| && line[|line| - |status|..] == status
  {
    Text.JoinEnds(Columns(e), Separator);
    Text.Join(Columns(e), Separator) + "\n"
  }

  /** `log`: append one entry at the end, leaving all earlier entries as they were. */
  function Log(trail: seq<Entry>, e: Entry): (r: seq<Entry>)
    ensures |r| == |trail| + 1 && r[..|trail|] == trail && r[|trail|] == e
  {
    trail + [e]
  }

  /** The audit file holding the given entries. */
  function Render(trail: seq<Entry>): string
    decreases |trail|
  {
    if |trail| == 0 then "" else Render(trail[..|trail| - 1]) + Line(trail[|trail| - 1])
  }

  /** Logging appends exactly the new line to the file and never rewrites what is already there. */
  lemma LogAppendsLine(trail: seq<Entry>, e: Entry)
    ensures Render(Log(trail, e)) == Render(trail) + Line(e)
  {
    assert Log(trail, e)[..|trail|] == trail;
  }

  predicate NoBar(s: string) {
    forall i :: 0 <= i < |s| ==> s[i] != '|'
  }

  /** Splits `s` at each occurrence of the separator; `cell` is the column read so far. */
  function Cells(s: string, cell: string): seq<string>
    decreases |s|
  {
    if |s| == 0 then [cell]
    else if |s| >= 3 && s[..3] == Separator then [cell] + Cells(s[3..], "")
    else Cells(s[1..], cell + [s[0]])
  }

  /** The columns of one line of the audit file, or None when the line is not newline-terminated. */
  function ParseLine(line: string): Option<seq<string>> {
    if |line| > 0 && line[|line| - 1] == '\n' then Some(Cells(line[..|line| - 1], "")) else None
  }

  /** Scanning over text with no bar that is not followed by a bar adds the text to the current column. */
  lemma {:induction false} CellsSkip(f: string, t: string, cell: string)
    requires NoBar(f)
    requires |t| == 0 || t[0] != '|'
    ensures Cells(f + t, cell) == Cells(t, cell + f)
    decreases |f|
  {
    if |f| == 0 {
      assert f + t == t;
      assert cell + f == cell;
    } else {
      var s := f + t;
      if |s| >= 3 {
        if |f| >= 2 {
          assert s[1] == f[1];
        } else {
          assert s[1] == t[0];
        }
        assert s[..3][1] == s[1];
      }
      assert s[1..] == f[1..] + t;
      CellsSkip(f[1..], t, cell + [f[0]]);
      assert cell + [f[0]] + f[1..] == cell + f;
    }
  }

  /** Columns free of bars joined by the separator split back into the same columns. */
  lemma {:induction false} CellsOfJoin(cols: seq<string>)
    requires |cols| > 0
    requires forall i :: 0 <= i < |cols| ==> NoBar(cols[i])
    ensures Cells(Text.Join(cols, Separator), "") == cols
    decreases |cols|
  {
    if |cols| == 1 {
      CellsSkip(cols[0], "", "");
      assert cols[0] + "" == cols[0];
      assert "" + cols[0] == cols[0];
    } else {
      var rest := Text.Join(cols[1..], Separator);
      var tail := Separator + rest;
      assert Text.Join(cols, Separator) == cols[0] + tail;
      CellsSkip(cols[0], tail, "");
      assert "" + cols[0] == cols[0];
      assert tail[..3] == Separator;
      assert tail[3..] == rest;
      CellsOfJoin(cols[1..]);
      assert [cols[0]] + cols[1..] == cols;
    }
  }

  /**
   A line whose columns contain no bar reads back as its five columns, and the
   status column says SUCCESS exactly when the entry records success.
   */
  lemma LineRoundTrip(e: Entry)
    requires NoBar(e.timestamp) && NoBar(e.action) && NoBar(e.keyId) && NoBar(AppColumn(e.app))
    ensures ParseLine(Line(e)) == Some(Columns(e))
    ensures var cols := ParseLine(Line(e)).value;
      && |cols| == 5 && cols[0] == e.timestamp && cols[1] == e.action && cols[2] == e.keyId
      && (cols[4] == "SUCCESS" <==> e.success)
  {
    var cols := Columns(e);
    var body := Text.Join(cols, Separator);
    assert NoBar(Status(e.success));
    CellsOfJoin(cols);
    assert (body + "\n")[..|body|] == body;
  }

  /** The line cannot tell an absent application from an empty one or from one literally named "None". */
  lemma AppPlaceholderAmbiguous(t: string, action: string, keyId: string, success: bool)
    ensures Line(Entry(t, action, keyId, None, success)) == Line(Entry(t, action, keyId, Some(""), success))
    ensures Line(Entry(t, action, keyId, None, success)) == Line(Entry(t, action, keyId, Some("None"), success))
  {
  }
}
