/** The HTML builders of src/lib/email-templates.ts: the e-mail frame around a title and a body,
    and the two-column table of label/value rows. Nothing inserted is escaped. */
module EmailTemplates {
  import opened Strings

  const ContainerStyle: string := "font-family: 'Segoe UI', Tahoma, Geneva, Verdana, sans-serif; max-width: 600px; margin: 0 auto; background-color: #ffffff; border: 1px solid #e0e0e0; border-radius: 8px; overflow: hidden; box-shadow: 0 4px 6px rgba(0,0,0,0.05);"
  const HeaderStyle: string := "background-color: #111827; padding: 30px 24px; text-align: center; background-image: linear-gradient(to right, #111827, #1f2937);"
  const HeaderTextStyle: string := "color: #ffffff; margin: 0; font-size: 26px; font-weight: 700; letter-spacing: 1px; font-family: 'Helvetica Neue', Arial, sans-serif;"
  const BodyStyle: string := "padding: 32px 24px; color: #374151; line-height: 1.6;"
  const GreetingStyle: string := "font-size: 18px; margin-bottom: 16px; color: #111827; font-weight: 600;"
  const TableStyle: string := "width: 100%; border-collapse: separate; border-spacing: 0; margin: 24px 0; background-color: #f9fafb; border-radius: 8px; border: 1px solid #e5e7eb; overflow: hidden;"
  const TdLabelStyle: string := "padding: 12px 16px; color: #6b7280; font-size: 14px; font-weight: 500; border-bottom: 1px solid #e5e7eb; width: 40%; background-color: #f3f4f6;"
  const TdValueStyle: string := "padding: 12px 16px; color: #111827; font-size: 14px; font-weight: 600; border-bottom: 1px solid #e5e7eb;"
  const FooterStyle: string := "background-color: #f3f4f6; padding: 24px; text-align: center; font-size: 12px; color: #6b7280; border-top: 1px solid #e5e7eb;"

  /** A template literal: the fixed parts with the substituted values between them,
      `parts[0] + values[0] + parts[1] + ... + parts[n]`. */
  function Template(parts: seq<string>, values: seq<string>): string
    requires |parts| == |values| + 1
    decreases |values|
  {
    if values == [] then parts[0] else parts[0] + (values[0] + Template(parts[1..], values[1..]))
  }

  /** Where fixed part `j` of a template starts in its text. */
  function PartAt(parts: seq<string>, values: seq<string>, j: nat): nat
    requires |parts| == |values| + 1 && j < |parts|
    decreases j
  {
    if j == 0 then 0 else |parts[0]| + |values[0]| + PartAt(parts[1..], values[1..], j - 1)
  }

  /** Where value `i` of a template starts in its text: right after fixed part `i`. */
  function ValueAt(parts: seq<string>, values: seq<string>, i: nat): nat
    requires |parts| == |values| + 1 && i < |values|
  {
    PartAt(parts, values, i) + |parts[i]|
  }

  lemma OccursPrefix(a: string, b: string)
    ensures OccursAt(a + b, a, 0)
  {
    assert (a + b)[..|a|] == a;
  }

  lemma OccursAfter(a: string, b: string, x: string, o: nat)
    requires OccursAt(b, x, o)
    ensures OccursAt(a + b, x, |a| + o)
  {
    assert (a + b)[|a| + o..|a| + o + |x|] == b[o..o + |x|];
  }

  /** Each fixed part after the first starts right after the value before it. */
  lemma {:induction false} PartStep(parts: seq<string>, values: seq<string>, i: nat)
    requires |parts| == |values| + 1 && i < |values|
    ensures PartAt(parts, values, i + 1) == ValueAt(parts, values, i) + |values[i]|
    decreases i
  {
    if i > 0 {
      PartStep(parts[1..], values[1..], i - 1);
    }
  }

  /** A template literal holds each fixed part unchanged at its position. */
  lemma {:induction false} TemplatePart(parts: seq<string>, values: seq<string>, j: nat)
    requires |parts| == |values| + 1 && j < |parts|
    ensures OccursAt(Template(parts, values), parts[j], PartAt(parts, values, j))
    decreases j
  {
    if values == [] {
      OccursPrefix(parts[0], "");
      assert parts[0] + "" == parts[0];
    } else if j == 0 {
      OccursPrefix(parts[0], values[0] + Template(parts[1..], values[1..]));
    } else {
      var rest := Template(parts[1..], values[1..]);
      TemplatePart(parts[1..], values[1..], j - 1);
      OccursAfter(parts[0] + values[0], rest, parts[j], PartAt(parts[1..], values[1..], j - 1));
      assert Template(parts, values) == (parts[0] + values[0]) + rest;
    }
  }

  /** A template literal holds each value unchanged (nothing is escaped), right after its fixed
      part. */
  lemma {:induction false} TemplateValue(parts: seq<string>, values: seq<string>, i: nat)
    requires |parts| == |values| + 1 && i < |values|
    ensures OccursAt(Template(parts, values), values[i], ValueAt(parts, values, i))
    decreases i
  {
    var rest := Template(parts[1..], values[1..]);
    if i == 0 {
      OccursPrefix(values[0], rest);
      OccursAfter(parts[0], values[0] + rest, values[0], 0);
    } else {
      TemplateValue(parts[1..], values[1..], i - 1);
      OccursAfter(parts[0] + values[0], rest, values[i], ValueAt(parts[1..], values[1..], i - 1));
      assert Template(parts, values) == (parts[0] + values[0]) + rest;
    }
  }

  /** Nothing follows the last fixed part. */
  lemma {:induction false} TemplateLength(parts: seq<string>, values: seq<string>)
    requires |parts| == |values| + 1
    ensures |Template(parts, values)| == PartAt(parts, values, |values|) + |parts[|values|]|
    decreases |values|
  {
    if values != [] {
      TemplateLength(parts[1..], values[1..]);
    }
  }

  /** The fixed text of the e-mail, cut at its ten substitutions: five style strings, the
      greeting name, the title, the body, the footer style and the year. */
  datatype EmailFrame = EmailFrame(
    openContainer: string,
    openHeader: string,
    openHeading: string,
    closeHeading: string,
    openGreeting: string,
    hello: string,
    afterName: string,
    afterTitle: string,
    signOff: string,
    copyright: string,
    closing: string)

  const EmailParts: EmailFrame := EmailFrame(
    "\n        <div style=\"",
    "\">\n            <div style=\"",
    "\">\n                <h1 style=\"",
    "\">INVESTHUB</h1>\n            </div>\n            <div style=\"",
    "\">\n                <p style=\"",
    "\">Hello ",
    ",</p>\n                <h2 style=\"font-size: 20px; color: #111827; margin-top: 0; margin-bottom: 16px; border-bottom: 2px solid #e5e7eb; padding-bottom: 8px; display: inline-block;\">",
    "</h2>\n                ",
    "\n                <div style=\"margin-top: 32px; padding-top: 24px; border-top: 1px solid #e5e7eb;\">\n                    <p style=\"margin: 0; color: #6b7280; font-size: 14px;\">Best regards,</p>\n                    <p style=\"margin: 4px 0 0 0; color: #111827; font-weight: 600;\">The InvestHub Team</p>\n                </div>\n            </div>\n            <div style=\"",
    "\">\n                <p style=\"margin: 0;\">&copy; ",
    " InvestHub. All rights reserved.</p>\n                <p style=\"margin: 8px 0 0 0;\">This is an automated notification. Please do not reply to this email.</p>\n                <div style=\"margin-top: 16px;\">\n                    <a href=\"#\" style=\"color: #3b82f6; text-decoration: none; margin: 0 8px;\">Privacy Policy</a>\n                    <span style=\"color: #cbd5e1;\">|</span>\n                    <a href=\"#\" style=\"color: #3b82f6; text-decoration: none; margin: 0 8px;\">Terms of Service</a>\n                </div>\n            </div>\n        </div>\n    ")

  function FrameParts(f: EmailFrame): seq<string> {
    [f.openContainer, f.openHeader, f.openHeading, f.closeHeading, f.openGreeting, f.hello, f.afterName, f.afterTitle, f.signOff, f.copyright, f.closing]
  }

  /** The style strings of the e-mail. */
  datatype EmailStyles = EmailStyles(container: string, header: string, headerText: string, body: string,
                                     greeting: string, footer: string)

  const EmailStyleValues: EmailStyles :=
    EmailStyles(ContainerStyle, HeaderStyle, HeaderTextStyle, BodyStyle, GreetingStyle, FooterStyle)

  function EmailValues(styles: EmailStyles, userName: string, title: string, contentHtml: string, year: nat): seq<string> {
    [styles.container, styles.header, styles.headerText, styles.body, styles.greeting,
     userName, title, contentHtml, styles.footer, NatText(year)]
  }

  /** An e-mail on a given frame and styles. */
  function Email(f: EmailFrame, styles: EmailStyles, userName: string, title: string, contentHtml: string, year: nat): string {
    Template(FrameParts(f), EmailValues(styles, userName, title, contentHtml, year))
  }

  /** The greeting name, the title, the body and the year appear in the e-mail exactly as given
      (no escaping), each right after its fixed text, in that order, and nothing follows the last
      fixed part. */
  lemma EmailLayout(f: EmailFrame, styles: EmailStyles, userName: string, title: string, contentHtml: string, year: nat)
    ensures var frame, values := FrameParts(f), EmailValues(styles, userName, title, contentHtml, year);
            var r := Email(f, styles, userName, title, contentHtml, year);
            && OccursAt(r, userName, ValueAt(frame, values, 5))
            && OccursAt(r, title, ValueAt(frame, values, 6))
            && OccursAt(r, contentHtml, ValueAt(frame, values, 7))
            && OccursAt(r, NatText(year), ValueAt(frame, values, 9))
            && ValueAt(frame, values, 5) + |userName| <= ValueAt(frame, values, 6)
            && ValueAt(frame, values, 6) + |title| <= ValueAt(frame, values, 7)
            && ValueAt(frame, values, 7) + |contentHtml| <= ValueAt(frame, values, 9)
            && |r| == ValueAt(frame, values, 9) + |NatText(year)| + |f.closing|
  {
    var frame, values := FrameParts(f), EmailValues(styles, userName, title, contentHtml, year);
    TemplateValue(frame, values, 5);
    TemplateValue(frame, values, 6);
    TemplateValue(frame, values, 7);
    TemplateValue(frame, values, 9);
    PartStep(frame, values, 5);
    PartStep(frame, values, 6);
    PartStep(frame, values, 7);
    PartStep(frame, values, 8);
    PartStep(frame, values, 9);
    TemplateLength(frame, values);
  }

  /** `generateEmailHtml`; the year of `new Date().getFullYear()` is supplied. */
  function EmailHtml(userName: string, title: string, contentHtml: string, year: nat): string {
    Email(EmailParts, EmailStyleValues, userName, title, contentHtml, year)
  }

  /** One `{ label, value }` entry of a table (`label` is a Dafny keyword, hence `labelText`). */
  datatype TableRow = TableRow(labelText: string, value: string)

  /** The extra style of both cells of a row: only the last row drops its bottom border. */
  function BorderStyle(isLast: bool): string {
    if isLast then "border-bottom: none;" else ""
  }

  /** The fixed text of a row fragment, cut at its six substitutions (label style, border,
      label, value style, border, value). */
  datatype RowFrame = RowFrame(openRow: string, afterLabelStyle: string, openLabel: string, openValueCell: string,
                               afterValueStyle: string, openValue: string, closeRow: string)

  const RowParts: RowFrame := RowFrame(
    "\n            " + "<tr>" + "\n                <td style=\"", " ", "\">", "</td>\n                <td style=\"", " ", "\">",
    "</td>\n            </tr>\n        ")

  function RowFrameParts(f: RowFrame): seq<string> {
    [f.openRow, f.afterLabelStyle, f.openLabel, f.openValueCell, f.afterValueStyle, f.openValue, f.closeRow]
  }

  /** A row frame opens one `<tr>` after a line feed and twelve spaces, and the text after the
      label cell's border starts by closing the style attribute. */
  predicate RowShaped(f: RowFrame) {
    OccursAt(f.openRow, "<tr>", 13) && f.openLabel != "" && f.openLabel[0] == '"'
  }

  lemma RowPartsShaped()
    ensures RowShaped(RowParts)
  {
    var lead, rest := "\n            ", "\n                <td style=\"";
    assert RowParts.openRow == lead + "<tr>" + rest;
    assert lead + "<tr>" + rest == lead + ("<tr>" + rest);
    OccursPrefix("<tr>", rest);
    OccursAfter(lead, "<tr>" + rest, "<tr>", 0);
  }

  /** The six substitutions of a row. */
  function RowValues(labelStyle: string, valueStyle: string, row: TableRow, isLast: bool): seq<string> {
    [labelStyle, BorderStyle(isLast), row.labelText, valueStyle, BorderStyle(isLast), row.value]
  }

  /** The `<tr>` fragment of one row on a given frame and cell styles. */
  function Row(f: RowFrame, labelStyle: string, valueStyle: string, row: TableRow, isLast: bool): string {
    Template(RowFrameParts(f), RowValues(labelStyle, valueStyle, row, isLast))
  }

  /** A row fragment opens one `<tr>` and holds the label and the value exactly as given. */
  lemma RowCells(f: RowFrame, labelStyle: string, valueStyle: string, row: TableRow, isLast: bool)
    requires RowShaped(f)
    ensures var frame, values := RowFrameParts(f), RowValues(labelStyle, valueStyle, row, isLast);
            var r := Row(f, labelStyle, valueStyle, row, isLast);
            && OccursAt(r, "<tr>", 13)
            && OccursAt(r, row.labelText, ValueAt(frame, values, 2))
            && OccursAt(r, row.value, ValueAt(frame, values, 5))
  {
    var frame, values := RowFrameParts(f), RowValues(labelStyle, valueStyle, row, isLast);
    var r := Row(f, labelStyle, valueStyle, row, isLast);
    TemplatePart(frame, values, 0);
    OccursWithin(r, f.openRow, 0, "<tr>", 13);
    TemplateValue(frame, values, 2);
    TemplateValue(frame, values, 5);
  }

  /** A row fragment carries "border-bottom: none;" right after the label cell's style exactly
      when it is the last row. */
  lemma RowBorder(f: RowFrame, labelStyle: string, valueStyle: string, row: TableRow, isLast: bool)
    requires RowShaped(f)
    ensures var frame, values := RowFrameParts(f), RowValues(labelStyle, valueStyle, row, isLast);
            var r := Row(f, labelStyle, valueStyle, row, isLast);
            OccursAt(r, "border-bottom: none;", ValueAt(frame, values, 1)) <==> isLast
  {
    var frame, values := RowFrameParts(f), RowValues(labelStyle, valueStyle, row, isLast);
    var r := Row(f, labelStyle, valueStyle, row, isLast);
    var at := ValueAt(frame, values, 1);
    if isLast {
      TemplateValue(frame, values, 1);
    } else {
      PartStep(frame, values, 1);
      TemplatePart(frame, values, 2);
      OccursWithin(r, f.openLabel, at, [f.openLabel[0]], 0);
      if OccursAt(r, "border-bottom: none;", at) {
        OccursWithin(r, "border-bottom: none;", at, "b", 0);
        assert false;
      }
    }
  }

  /** `rows.map(...)` on a given row frame: the fragment of each row, the last one marked as last. */
  function RowPieces(frame: RowFrame, labelStyle: string, valueStyle: string, rows: seq<TableRow>): (r: seq<string>)
    ensures |r| == |rows|
    ensures forall k :: 0 <= k < |rows| ==> r[k] == Row(frame, labelStyle, valueStyle, rows[k], k == |rows| - 1)
  {
    seq(|rows|, k requires 0 <= k < |rows| => Row(frame, labelStyle, valueStyle, rows[k], k == |rows| - 1))
  }

  /** The fixed text of the table around its style and its rows. */
  datatype TableFrame = TableFrame(openTable: string, afterStyle: string, closeTable: string)

  const TableParts: TableFrame := TableFrame("<table style=\"", "\">", "</table>")

  function TableFrameParts(f: TableFrame): seq<string> {
    [f.openTable, f.afterStyle, f.closeTable]
  }

  /** The three styles the table uses: the table's own and the two cell styles. */
  datatype TableStyles = TableStyles(table: string, labelCell: string, valueCell: string)

  const TableStyleValues: TableStyles := TableStyles(TableStyle, TdLabelStyle, TdValueStyle)

  /** A table on given frames and styles: the row fragments joined with nothing between them,
      inside the table element. */
  function Table(frame: TableFrame, rowFrame: RowFrame, styles: TableStyles, rows: seq<TableRow>): string {
    Template(TableFrameParts(frame), [styles.table, Join(RowPieces(rowFrame, styles.labelCell, styles.valueCell, rows), "")])
  }

  /** `generateTableHtml`. */
  function TableHtml(rows: seq<TableRow>): string {
    Table(TableParts, RowParts, TableStyleValues, rows)
  }

  /** The total length of the first `k` texts. */
  function Offset(xs: seq<string>, k: nat): nat
    requires k <= |xs|
    decreases k
  {
    if k == 0 then 0 else |xs[0]| + Offset(xs[1..], k - 1)
  }

  lemma {:induction false} OffsetStep(xs: seq<string>, k: nat)
    requires k < |xs|
    ensures Offset(xs, k + 1) == Offset(xs, k) + |xs[k]|
    decreases k
  {
    if k > 0 {
      OffsetStep(xs[1..], k - 1);
    }
  }

  /** `join('')` lays the texts end to end: text `k` sits at the total length of the ones before
      it, and nothing else is added. */
  lemma {:induction false} JoinTiles(xs: seq<string>)
    ensures |Join(xs, "")| == Offset(xs, |xs|)
    ensures forall k :: 0 <= k < |xs| ==> OccursAt(Join(xs, ""), xs[k], Offset(xs, k))
  {
    if xs != [] {
      var head, tail := xs[0], xs[1..];
      var rest := Join(tail, "");
      JoinTiles(tail);
      JoinFirst(xs);
      OccursPrefix(head, rest);
      forall k | 1 <= k < |xs|
        ensures OccursAt(Join(xs, ""), xs[k], Offset(xs, k))
      {
        assert xs[k] == tail[k - 1];
        assert Offset(xs, k) == |head| + Offset(tail, k - 1);
        OccursAfter(head, rest, tail[k - 1], Offset(tail, k - 1));
      }
      assert Offset(xs, |xs|) == |head| + Offset(tail, |tail|);
    }
  }

  /** `join('')` of a non-empty list is its first text followed by the join of the others. */
  lemma JoinFirst(xs: seq<string>)
    requires xs != []
    ensures Join(xs, "") == xs[0] + Join(xs[1..], "")
  {
    if |xs| == 1 {
      assert Join(xs[1..], "") == "";
      assert xs[0] + "" == xs[0];
    }
  }

  /** The rows of a table sit end to end between the end of the opening text and the start of the
      closing tag: the table is the opening tag with its style, the row fragments, then the
      closing tag, and nothing else; with no rows the opening text is directly followed by the
      closing tag. */
  lemma TableFrameLayout(f: TableFrame, rowFrame: RowFrame, styles: TableStyles, rows: seq<TableRow>)
    ensures var pieces := RowPieces(rowFrame, styles.labelCell, styles.valueCell, rows);
            var r, start := Table(f, rowFrame, styles, rows), |f.openTable| + |styles.table| + |f.afterStyle|;
            && OccursAt(r, f.openTable, 0)
            && OccursAt(r, styles.table, |f.openTable|)
            && OccursAt(r, Join(pieces, ""), start)
            && OccursAt(r, f.closeTable, start + Offset(pieces, |rows|))
            && |r| == start + Offset(pieces, |rows|) + |f.closeTable|
  {
    TableOpening(f, rowFrame, styles, rows);
    TableClosing(f, rowFrame, styles, rows);
  }

  /** The opening tag, then the table style, then the row fragments after the rest of the opening
      text. */
  lemma TableOpening(f: TableFrame, rowFrame: RowFrame, styles: TableStyles, rows: seq<TableRow>)
    ensures var pieces := RowPieces(rowFrame, styles.labelCell, styles.valueCell, rows);
            var r := Table(f, rowFrame, styles, rows);
            && OccursAt(r, f.openTable, 0)
            && OccursAt(r, styles.table, |f.openTable|)
            && OccursAt(r, Join(pieces, ""), |f.openTable| + |styles.table| + |f.afterStyle|)
  {
    var pieces := RowPieces(rowFrame, styles.labelCell, styles.valueCell, rows);
    var frame, values := TableFrameParts(f), [styles.table, Join(pieces, "")];
    assert ValueAt(frame, values, 1) == |f.openTable| + |styles.table| + |f.afterStyle|;
    TemplatePart(frame, values, 0);
    TemplateValue(frame, values, 0);
    TemplateValue(frame, values, 1);
  }

  /** The closing tag right after the row fragments, and nothing after it. */
  lemma TableClosing(f: TableFrame, rowFrame: RowFrame, styles: TableStyles, rows: seq<TableRow>)
    ensures var pieces := RowPieces(rowFrame, styles.labelCell, styles.valueCell, rows);
            var r, start := Table(f, rowFrame, styles, rows), |f.openTable| + |styles.table| + |f.afterStyle|;
            && OccursAt(r, f.closeTable, start + Offset(pieces, |rows|))
            && |r| == start + Offset(pieces, |rows|) + |f.closeTable|
  {
    var pieces := RowPieces(rowFrame, styles.labelCell, styles.valueCell, rows);
    var frame, values := TableFrameParts(f), [styles.table, Join(pieces, "")];
    assert ValueAt(frame, values, 1) == |f.openTable| + |styles.table| + |f.afterStyle|;
    JoinTiles(pieces);
    PartStep(frame, values, 1);
    TemplatePart(frame, values, 2);
    TemplateLength(frame, values);
  }

  /** The row fragments start right after the opening text. */
  lemma TableBodyAt(f: TableFrame, rowFrame: RowFrame, styles: TableStyles, rows: seq<TableRow>)
    ensures OccursAt(Table(f, rowFrame, styles, rows), Join(RowPieces(rowFrame, styles.labelCell, styles.valueCell, rows), ""),
                     |f.openTable| + |styles.table| + |f.afterStyle|)
  {
    var frame, values := TableFrameParts(f), [styles.table, Join(RowPieces(rowFrame, styles.labelCell, styles.valueCell, rows), "")];
    TemplateValue(frame, values, 1);
    assert ValueAt(frame, values, 1) == |f.openTable| + |styles.table| + |f.afterStyle|;
  }

  /** The table holds exactly one fragment per row, in input order, each starting where the
      previous one ends. */
  lemma TableRowsInOrder(f: TableFrame, rowFrame: RowFrame, styles: TableStyles, rows: seq<TableRow>)
    ensures Tiled(Table(f, rowFrame, styles, rows), RowPieces(rowFrame, styles.labelCell, styles.valueCell, rows),
                  |f.openTable| + |styles.table| + |f.afterStyle|)
  {
    TableBodyAt(f, rowFrame, styles, rows);
    PiecesInOrder(Table(f, rowFrame, styles, rows), RowPieces(rowFrame, styles.labelCell, styles.valueCell, rows),
                  |f.openTable| + |styles.table| + |f.afterStyle|);
  }

  /** Each of `pieces` occurs in `r` at `start` plus the total length of the pieces before it, so
      they sit end to end in order. */
  predicate Tiled(r: string, pieces: seq<string>, start: nat) {
    forall k :: 0 <= k < |pieces| ==>
      && OccursAt(r, pieces[k], start + Offset(pieces, k))
      && Offset(pieces, k + 1) == Offset(pieces, k) + |pieces[k]|
  }

  /** Where texts joined with nothing between them occur, each of them occurs at its offset. */
  lemma PiecesInOrder(r: string, pieces: seq<string>, start: nat)
    requires OccursAt(r, Join(pieces, ""), start)
    ensures Tiled(r, pieces, start)
  {
    JoinTiles(pieces);
    forall k | 0 <= k < |pieces|
      ensures OccursAt(r, pieces[k], start + Offset(pieces, k))
      ensures Offset(pieces, k + 1) == Offset(pieces, k) + |pieces[k]|
    {
      OffsetStep(pieces, k);
      OccursWithin(r, Join(pieces, ""), start, pieces[k], Offset(pieces, k));
    }
  }

  /** An occurrence inside a piece of a text is an occurrence in the text, shifted by where the
      piece sits. */
  lemma OccursWithin(t: string, piece: string, at: nat, x: string, o: nat)
    requires OccursAt(t, piece, at) && OccursAt(piece, x, o)
    ensures OccursAt(t, x, at + o)
  {
    forall i | 0 <= i < |x|
      ensures t[at + o + i] == x[i]
    {
      assert x[i] == piece[o..o + |x|][i] == piece[o + i];
      assert piece[o + i] == t[at..at + |piece|][o + i];
    }
  }
}
