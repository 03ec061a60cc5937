/** The caller's transaction export (src/app/api/user/transactions/export/route.ts): the period
    filter, the newest-first selection of the caller's own transactions and the CSV attachment. */
module TransactionExport {
  import opened Common
  import opened Records
  import opened Sorting
  import opened Strings

  /** The instants one, three and six calendar months before the request, as `setMonth` on the
      current date gives them; the calendar arithmetic is done outside the model. */
  datatype Cutoffs = Cutoffs(oneMonth: int, threeMonths: int, sixMonths: int)

  /** The earliest `createdAt` kept for a `duration` parameter: "1m", "3m" and "6m" filter, any
      other value (including "all" and none) keeps every date. */
  function Cutoff(duration: Option<string>, c: Cutoffs): (r: Option<int>)
    ensures r.Some? <==> duration == Some("1m") || duration == Some("3m") || duration == Some("6m")
    ensures duration == Some("1m") ==> r == Some(c.oneMonth)
    ensures duration == Some("3m") ==> r == Some(c.threeMonths)
    ensures duration == Some("6m") ==> r == Some(c.sixMonths)
  {
    if duration == Some("1m") then Some(c.oneMonth)
    else if duration == Some("3m") then Some(c.threeMonths)
    else if duration == Some("6m") then Some(c.sixMonths)
    else None
  }

  predicate InPeriod(t: Transaction, uid: Id, cutoff: Option<int>) {
    t.userId == uid && (cutoff.None? || t.createdAt >= cutoff.value)
  }

  /** The caller's transactions inside the period, newest first. */
  function Selected(txs: seq<Transaction>, uid: Id, duration: Option<string>, c: Cutoffs): seq<Transaction> {
    var cutoff := Cutoff(duration, c);
    SortDesc(Filter(txs, (t: Transaction) => InPeriod(t, uid, cutoff)), (t: Transaction) => t.createdAt)
  }

  /** The export holds exactly the caller's transactions of the period, newest first. */
  lemma SelectedListing(txs: seq<Transaction>, uid: Id, duration: Option<string>, c: Cutoffs)
    ensures var r := Selected(txs, uid, duration, c);
            && (forall k :: 0 <= k < |r| ==> r[k] in txs && InPeriod(r[k], uid, Cutoff(duration, c)))
            && (forall k :: 0 <= k < |txs| && InPeriod(txs[k], uid, Cutoff(duration, c)) ==> txs[k] in r)
            && SortedDesc(r, (t: Transaction) => t.createdAt)
  {
    var cutoff := Cutoff(duration, c);
    var mine := Filter(txs, (t: Transaction) => InPeriod(t, uid, cutoff));
    var r := Selected(txs, uid, duration, c);
    SortDescCorrect(mine, (t: Transaction) => t.createdAt);
    forall k | 0 <= k < |r|
      ensures r[k] in txs && InPeriod(r[k], uid, cutoff)
    {
      assert r[k] in multiset(mine);
    }
    forall k | 0 <= k < |txs| && InPeriod(txs[k], uid, cutoff)
      ensures txs[k] in r
    {
      assert txs[k] in multiset(mine);
    }
  }

  const Headers: seq<string> := ["Date", "Time", "Type", "Description", "Amount", "Status", "Reference ID", "UTR Number"]

  /** The transaction type and status as stored, by their enum member names. */
  function KindText(k: TxKind): string {
    match k
    case DepositTx => "DEPOSIT"
    case WithdrawalTx => "WITHDRAWAL"
    case ProfitTx => "PROFIT"
    case ReferralBonusTx => "REFERRAL_BONUS"
  }

  function StatusText(s: TxStatus): string {
    match s
    case TPending => "PENDING"
    case TSuccess => "SUCCESS"
    case TFailed => "FAILED"
    case TRejected => "REJECTED"
  }

  /** The eight columns of one transaction. The locale date and time texts are supplied. */
  function Fields(t: Transaction, dateText: int -> string, timeText: int -> string): (r: seq<string>)
    ensures |r| == |Headers|
    ensures t.description == "" ==> r[3] == "System Transaction"
    ensures t.description != "" ==> r[3] == t.description
    ensures Blank(t.utrNumber) ==> r[7] == "-"
  {
    [dateText(t.createdAt), timeText(t.createdAt), KindText(t.kind),
     if t.description == "" then "System Transaction" else t.description,
     AmountText(t.amount), StatusText(t.status), NatText(t.id), OrDefault(t.utrNumber, "-")]
  }

  /** A field wrapped in double quotes; quotes inside it are not doubled. */
  function Quote(f: string): string {
    "\"" + f + "\""
  }

  function Quoted(fields: seq<string>): (r: seq<string>)
    ensures |r| == |fields| && forall k :: 0 <= k < |r| ==> r[k] == Quote(fields[k])
  {
    seq(|fields|, k requires 0 <= k < |fields| => Quote(fields[k]))
  }

  function Row(fields: seq<string>): string {
    Join(Quoted(fields), ",")
  }

  function Rows(txs: seq<Transaction>, dateText: int -> string, timeText: int -> string): (r: seq<string>)
    ensures |r| == |txs| && forall k :: 0 <= k < |txs| ==> r[k] == Row(Fields(txs[k], dateText, timeText))
  {
    seq(|txs|, k requires 0 <= k < |txs| => Row(Fields(txs[k], dateText, timeText)))
  }

  /** The header line followed by one line per transaction, joined by line feeds. */
  function Csv(txs: seq<Transaction>, dateText: int -> string, timeText: int -> string): string {
    Join([Join(Headers, ",")] + Rows(txs, dateText, timeText), "\n")
  }

  /** A column text that cannot break the line structure. */
  predicate OneLine(f: string) {
    '\n' !in f
  }

  /** When no column holds a comma, a row splits back at its commas into exactly the quoted
      columns, one per header. */
  lemma RowColumns(fields: seq<string>)
    requires |fields| == |Headers| && forall k :: 0 <= k < |fields| ==> ',' !in fields[k]
    ensures Split(Row(fields), ',') == Quoted(fields)
    ensures |Split(Row(fields), ',')| == 8
  {
    forall k | 0 <= k < |fields|
      ensures ',' !in Quoted(fields)[k]
    {
      assert Quoted(fields)[k] == ['"'] + fields[k] + ['"'];
    }
    SplitJoin(Quoted(fields), ',');
  }

  /** When no column holds a line feed, the export splits back at its line feeds into the header
      line and one row per exported transaction, in order. */
  lemma CsvLines(txs: seq<Transaction>, dateText: int -> string, timeText: int -> string)
    requires forall k, j :: 0 <= k < |txs| && 0 <= j < |Headers| ==> OneLine(Fields(txs[k], dateText, timeText)[j])
    ensures Split(Csv(txs, dateText, timeText), '\n') == [Join(Headers, ",")] + Rows(txs, dateText, timeText)
    ensures |Split(Csv(txs, dateText, timeText), '\n')| == |txs| + 1
  {
    var rows := Rows(txs, dateText, timeText);
    var lines := [Join(Headers, ",")] + rows;
    HeadersOneLine();
    JoinAvoids(Headers, ",", '\n');
    forall k | 0 <= k < |txs|
      ensures '\n' !in rows[k]
    {
      RowOneLine(Fields(txs[k], dateText, timeText));
    }
    forall i | 0 <= i < |lines| ensures '\n' !in lines[i] {
      if i > 0 { assert lines[i] == rows[i - 1]; }
    }
    SplitJoin(lines, '\n');
  }

  lemma HeadersOneLine()
    ensures forall k :: 0 <= k < |Headers| ==> '\n' !in Headers[k]
  {
    forall k | 0 <= k < |Headers| ensures '\n' !in Headers[k] {
      if k == 0 { assert Headers[k] == "Date"; }
      else if k == 1 { assert Headers[k] == "Time"; }
      else if k == 2 { assert Headers[k] == "Type"; }
      else if k == 3 { assert Headers[k] == "Description"; }
      else if k == 4 { assert Headers[k] == "Amount"; }
      else if k == 5 { assert Headers[k] == "Status"; }
      else if k == 6 { assert Headers[k] == "Reference ID"; }
      else { assert Headers[k] == "UTR Number"; }
    }
  }

  lemma RowOneLine(fs: seq<string>)
    requires forall j :: 0 <= j < |fs| ==> OneLine(fs[j])
    ensures '\n' !in Row(fs)
  {
    forall j | 0 <= j < |fs| ensures '\n' !in Quoted(fs)[j] {
      assert Quoted(fs)[j] == ['"'] + fs[j] + ['"'];
    }
    JoinAvoids(Quoted(fs), ",", '\n');
  }

  /** Joining texts free of `c` with a separator free of `c` gives a text free of `c`. */
  lemma {:induction false} JoinAvoids(xs: seq<string>, sep: string, c: char)
    requires c !in sep && forall k :: 0 <= k < |xs| ==> c !in xs[k]
    ensures c !in Join(xs, sep)
  {
    if |xs| > 1 {
      JoinAvoids(xs[1..], sep, c);
    }
  }

  /** GET: a signed-in caller exports the transactions of the chosen period; an empty selection is
      NotFound, and the export fails when the e-mail carrying it cannot be sent. */
  function Export(session: Option<Session>, txs: seq<Transaction>, duration: Option<string>, c: Cutoffs,
                  dateText: int -> string, timeText: int -> string, emailSent: bool): (r: Result<string>)
    ensures session.None? <==> r == Err(Unauthorized)
    ensures session.Some? ==>
              var sel := Selected(txs, session.value.userId, duration, c);
              && (sel == [] <==> r == Err(NotFound))
              && (sel != [] && !emailSent <==> r == Err(ServiceFailure))
              && (r.Ok? ==> r.value == Csv(sel, dateText, timeText))
  {
    if session.None? then Err(Unauthorized)
    else
      var sel := Selected(txs, session.value.userId, duration, c);
      if sel == [] then Err(NotFound)
      else if !emailSent then Err(ServiceFailure)
      else Ok(Csv(sel, dateText, timeText))
  }
}
