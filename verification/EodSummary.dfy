/** The end-of-day summary: each figure is rounded once, so that cells, bucket totals and the net line
    are sums of the same whole rupees. */
module EodSummary {
  import opened Wrappers
  import opened Rounding

  datatype Figure = Figure(id: string, floating: real, booked: real)

  datatype Meta = Meta(bucket: string, name: string)

  datatype Row = Row(name: string, bucket: string, floating: int, booked: int)

  /** A table line with its three cells; a bucket's total line stands above its member lines. */
  datatype Line =
    | Header | DoubleRule | SingleRule
    | BucketTotal(bucket: string, flt: int, bkd: int, total: int)
    | Member(name: string, flt: int, bkd: int, total: int)

  datatype Fault = UnknownStrategy(id: string) | NoRows | UnknownBucket

  datatype Summary = Summary(net: int, lines: seq<Line>)

  function RowOf(meta: map<string, Meta>, f: Figure): Row
    requires f.id in meta
  {
    Row(meta[f.id].name, meta[f.id].bucket, HalfUp(f.floating), HalfUp(f.booked))
  }

  function Floating(rows: seq<Row>): int { if rows == [] then 0 else rows[0].floating + Floating(rows[1..]) }

  function Booked(rows: seq<Row>): int { if rows == [] then 0 else rows[0].booked + Booked(rows[1..]) }

  function InBucket(rows: seq<Row>, bucket: string): seq<Row> {
    if rows == [] then []
    else (if rows[0].bucket == bucket then [rows[0]] else []) + InBucket(rows[1..], bucket)
  }

  function MemberLine(r: Row): Line { Member(r.name, r.floating, r.booked, r.floating + r.booked) }

  function MemberLines(members: seq<Row>): seq<Line> {
    if members == [] then [] else [MemberLine(members[0])] + MemberLines(members[1..])
  }

  function TotalLine(bucket: string, members: seq<Row>): Line {
    BucketTotal(bucket, Floating(members), Booked(members), Floating(members) + Booked(members))
  }

  function Section(rows: seq<Row>, bucket: string): seq<Line> {
    [TotalLine(bucket, InBucket(rows, bucket))] + MemberLines(InBucket(rows, bucket))
  }

  /** Empty buckets are left out; a rule separates the others. */
  function Sections(rows: seq<Row>, order: seq<string>): seq<Line> {
    if order == [] then []
    else
      var before := Sections(rows, order[..|order| - 1]);
      var bucket := order[|order| - 1];
      if InBucket(rows, bucket) == [] then before
      else before + (if before == [] then [] else [SingleRule]) + Section(rows, bucket)
  }

  method BuildStrategyTable(rows: seq<Row>, order: seq<string>) returns (r: Result<seq<Line>, Fault>)
    ensures r == if rows == [] then Err(NoRows)
                 else if exists i :: 0 <= i < |rows| && rows[i].bucket !in order then Err(UnknownBucket)
                 else Ok([Header, DoubleRule] + Sections(rows, order))
  {
    if rows == [] { return Err(NoRows); }
    if exists i :: 0 <= i < |rows| && rows[i].bucket !in order { return Err(UnknownBucket); }
    var body: seq<Line> := [];
    for i := 0 to |order|
      invariant body == Sections(rows, order[..i])
    {
      assert order[..i + 1][..i] == order[..i];
      var members := InBucket(rows, order[i]);
      if members != [] {
        var section := BuildSection(order[i], members);
        body := body + (if body == [] then [] else [SingleRule]) + section;
      }
    }
    assert order[..|order|] == order;
    return Ok([Header, DoubleRule] + body);
  }

  /** The total line above its member lines. */
  method BuildSection(bucket: string, members: seq<Row>) returns (lines: seq<Line>)
    ensures lines == [TotalLine(bucket, members)] + MemberLines(members)
  {
    lines := [TotalLine(bucket, members)];
    for j := 0 to |members|
      invariant lines == [TotalLine(bucket, members)] + MemberLines(members[..j])
    {
      MemberLinesAppend(members[..j], members[j]);
      assert members[..j + 1] == members[..j] + [members[j]];
      lines := lines + [MemberLine(members[j])];
    }
    assert members[..|members|] == members;
  }

  lemma {:induction false} MemberLinesAppend(members: seq<Row>, r: Row)
    ensures MemberLines(members + [r]) == MemberLines(members) + [MemberLine(r)]
  {
    if members == [] {
      assert [r][1..] == [] && members + [r] == [r];
    } else {
      MemberLinesAppend(members[1..], r);
      assert (members + [r])[1..] == members[1..] + [r];
    }
  }

  predicate Mapped(meta: map<string, Meta>, figures: seq<Figure>) {
    forall i :: 0 <= i < |figures| ==> figures[i].id in meta
  }

  function Rounded(meta: map<string, Meta>, figures: seq<Figure>): (rows: seq<Row>)
    requires Mapped(meta, figures)
    ensures |rows| == |figures|
    ensures forall i :: 0 <= i < |rows| ==> rows[i] == RowOf(meta, figures[i])
  {
    seq(|figures|, i requires 0 <= i < |figures| => RowOf(meta, figures[i]))
  }

  predicate FirstUnknown(meta: map<string, Meta>, figures: seq<Figure>, i: int) {
    0 <= i < |figures| && Mapped(meta, figures[..i]) && figures[i].id !in meta
  }

  /** The first strategy without a bucket stops the whole message. */
  method BuildEodSummary(meta: map<string, Meta>, order: seq<string>, figures: seq<Figure>)
    returns (r: Result<Summary, Fault>)
    ensures !Mapped(meta, figures) ==>
      exists i :: FirstUnknown(meta, figures, i) && r == Err(UnknownStrategy(figures[i].id))
    ensures Mapped(meta, figures) ==>
      var rows := Rounded(meta, figures);
      r == if rows == [] then Err(NoRows)
           else if exists i :: 0 <= i < |rows| && rows[i].bucket !in order then Err(UnknownBucket)
           else Ok(Summary(Floating(rows) + Booked(rows), [Header, DoubleRule] + Sections(rows, order)))
  {
    var rows: seq<Row> := [];
    for i := 0 to |figures|
      invariant Mapped(meta, figures[..i]) && rows == Rounded(meta, figures[..i])
    {
      if figures[i].id !in meta {
        assert FirstUnknown(meta, figures, i);
        return Err(UnknownStrategy(figures[i].id));
      }
      assert figures[..i + 1] == figures[..i] + [figures[i]];
      rows := rows + [RowOf(meta, figures[i])];
    }
    assert figures[..|figures|] == figures;
    var net := 0;
    for i := 0 to |rows|
      invariant net == Floating(rows[..i]) + Booked(rows[..i])
    {
      SumsAppend(rows[..i], rows[i]);
      assert rows[..i + 1] == rows[..i] + [rows[i]];
      net := net + (rows[i].floating + rows[i].booked);
    }
    assert rows[..|rows|] == rows;
    var table := BuildStrategyTable(rows, order);
    r := match table case Ok(lines) => Ok(Summary(net, lines)) case Err(e) => Err(e);
  }

  lemma {:induction false} SumsAppend(rows: seq<Row>, r: Row)
    ensures Floating(rows + [r]) == Floating(rows) + r.floating && Booked(rows + [r]) == Booked(rows) + r.booked
  {
    if rows == [] {
      assert rows + [r] == [r] && [r][1..] == [];
    } else {
      SumsAppend(rows[1..], r);
      assert (rows + [r])[1..] == rows[1..] + [r];
    }
  }

  // --- The table foots -----------------------------------------------------------------

  predicate RowFoots(l: Line) { (l.BucketTotal? || l.Member?) ==> l.total == l.flt + l.bkd }

  /** Sums over the total lines and over the member lines of a piece of the table. */
  function Totals(lines: seq<Line>): int {
    if lines == [] then 0
    else Totals(lines[..|lines| - 1]) + (if lines[|lines| - 1].BucketTotal? then lines[|lines| - 1].total else 0)
  }

  function Members(lines: seq<Line>): int {
    if lines == [] then 0
    else Members(lines[..|lines| - 1]) + (if lines[|lines| - 1].Member? then lines[|lines| - 1].total else 0)
  }

  function MembersFlt(lines: seq<Line>): int {
    if lines == [] then 0
    else MembersFlt(lines[..|lines| - 1]) + (if lines[|lines| - 1].Member? then lines[|lines| - 1].flt else 0)
  }

  lemma {:induction false} SumsConcat(a: seq<Line>, b: seq<Line>)
    ensures Totals(a + b) == Totals(a) + Totals(b) && Members(a + b) == Members(a) + Members(b)
    ensures MembersFlt(a + b) == MembersFlt(a) + MembersFlt(b)
  {
    if b == [] {
      assert a + b == a;
    } else {
      SumsConcat(a, b[..|b| - 1]);
      assert (a + b)[..|a + b| - 1] == a + b[..|b| - 1];
    }
  }

  lemma {:induction false} MemberLinesSum(members: seq<Row>)
    ensures Members(MemberLines(members)) == Floating(members) + Booked(members)
    ensures MembersFlt(MemberLines(members)) == Floating(members) && Totals(MemberLines(members)) == 0
    ensures forall l :: l in MemberLines(members) ==> RowFoots(l)
  {
    if members != [] {
      MemberLinesSum(members[1..]);
      SumsConcat([MemberLine(members[0])], MemberLines(members[1..]));
      assert [MemberLine(members[0])][..0] == [];
    }
  }

  /** A bucket's total line is the sum of the member lines right below it, column by column. */
  lemma SectionFoots(rows: seq<Row>, bucket: string)
    ensures var s := Section(rows, bucket);
      && s[0].BucketTotal? && s[0].bucket == bucket
      && s[0].flt == MembersFlt(s[1..]) && s[0].total == Members(s[1..])
      && (forall l :: l in s[1..] ==> l.Member?) && (forall l :: l in s ==> RowFoots(l))
      && Totals(s) == Members(s) == s[0].total
  {
    var members := InBucket(rows, bucket);
    MemberLinesSum(members);
    MembersOnly(members);
    var s := Section(rows, bucket);
    assert s[1..] == MemberLines(members);
    SumsConcat([s[0]], s[1..]);
    assert s == [s[0]] + s[1..] && [s[0]][..0] == [];
  }

  lemma {:induction false} MembersOnly(members: seq<Row>)
    ensures forall l :: l in MemberLines(members) ==> l.Member?
  {
    if members != [] { MembersOnly(members[1..]); }
  }

  function Outside(rows: seq<Row>, order: seq<string>): int {
    if rows == [] then 0
    else (if rows[0].bucket in order then 0 else rows[0].floating + rows[0].booked) + Outside(rows[1..], order)
  }

  lemma {:induction false} SectionsFoot(rows: seq<Row>, order: seq<string>)
    requires forall i, j :: 0 <= i < j < |order| ==> order[i] != order[j]
    ensures Totals(Sections(rows, order)) == Members(Sections(rows, order))
    ensures Totals(Sections(rows, order)) + Outside(rows, order) == Floating(rows) + Booked(rows)
    ensures forall l :: l in Sections(rows, order) ==> RowFoots(l)
  {
    if order == [] {
      AllOutside(rows);
    } else {
      var n := |order| - 1;
      var bucket, before := order[n], Sections(rows, order[..n]);
      SectionsFoot(rows, order[..n]);
      OneMoreBucket(rows, order[..n], bucket);
      assert order == order[..n] + [bucket];
      var members := InBucket(rows, bucket);
      if members != [] {
        SectionFoots(rows, bucket);
        SumsConcat(before, [SingleRule]);
        assert [SingleRule][..0] == [];
        var upper := before + (if before == [] then [] else [SingleRule]);
        assert before + [] == before;
        SumsConcat(upper, Section(rows, bucket));
      }
    }
  }

  lemma {:induction false} AllOutside(rows: seq<Row>)
    ensures Outside(rows, []) == Floating(rows) + Booked(rows)
  {
    if rows != [] { AllOutside(rows[1..]); }
  }

  lemma {:induction false} OneMoreBucket(rows: seq<Row>, order: seq<string>, bucket: string)
    requires bucket !in order
    ensures Outside(rows, order) == Outside(rows, order + [bucket])
      + Floating(InBucket(rows, bucket)) + Booked(InBucket(rows, bucket))
  {
    if rows != [] {
      OneMoreBucket(rows[1..], order, bucket);
      var rest := InBucket(rows[1..], bucket);
      assert rows[0].bucket == bucket ==> ([rows[0]] + rest)[1..] == rest;
      assert [] + rest == rest;
    }
  }

  lemma {:induction false} NoneOutside(rows: seq<Row>, order: seq<string>)
    requires forall i :: 0 <= i < |rows| ==> rows[i].bucket in order
    ensures Outside(rows, order) == 0
  {
    if rows != [] { NoneOutside(rows[1..], order); }
  }

  /** The whole message foots for every list of strategies: each line's total is its two cells, and the
      bucket totals, the member lines and the net line are one and the same sum. */
  lemma SummaryFoots(rows: seq<Row>, order: seq<string>)
    requires forall i, j :: 0 <= i < j < |order| ==> order[i] != order[j]
    requires forall i :: 0 <= i < |rows| ==> rows[i].bucket in order
    ensures var lines := [Header, DoubleRule] + Sections(rows, order);
      && (forall l :: l in lines ==> RowFoots(l))
      && Totals(lines) == Members(lines) == Floating(rows) + Booked(rows)
  {
    SectionsFoot(rows, order);
    NoneOutside(rows, order);
    var head := [Header, DoubleRule];
    assert head[..1] == [Header] && [Header][..0] == [];
    SumsConcat(head, Sections(rows, order));
  }

  function Exact(figures: seq<Figure>): real {
    if figures == [] then 0.0 else figures[0].floating + figures[0].booked + Exact(figures[1..])
  }

  /** The net line is within one rupee per strategy of the unrounded total. */
  lemma {:induction false} NetWithinOnePerStrategy(meta: map<string, Meta>, figures: seq<Figure>)
    requires Mapped(meta, figures)
    ensures var rows := Rounded(meta, figures);
      -(|figures| as real) <= (Floating(rows) + Booked(rows)) as real - Exact(figures) <= |figures| as real
  {
    if figures != [] {
      NetWithinOnePerStrategy(meta, figures[1..]);
      assert Rounded(meta, figures)[1..] == Rounded(meta, figures[1..]);
    }
  }

  // --- Each strategy's own line ---------------------------------------------------------

  lemma {:induction false} MemberOfBucket(rows: seq<Row>, r: Row)
    requires r in rows
    ensures r in InBucket(rows, r.bucket)
  {
    if rows[0] != r { MemberOfBucket(rows[1..], r); }
  }

  lemma {:induction false} LineOfMember(members: seq<Row>, r: Row)
    requires r in members
    ensures MemberLine(r) in MemberLines(members)
  {
    if members[0] != r { LineOfMember(members[1..], r); }
  }

  lemma {:induction false} LineInSections(rows: seq<Row>, order: seq<string>, r: Row)
    requires r in rows && r.bucket in order
    ensures MemberLine(r) in Sections(rows, order)
  {
    var n := |order| - 1;
    if order[n] == r.bucket {
      MemberOfBucket(rows, r);
      LineOfMember(InBucket(rows, r.bucket), r);
    } else {
      assert r.bucket in order[..n] by { assert order == order[..n] + [order[n]]; }
      LineInSections(rows, order[..n], r);
    }
  }

  /** A strategy's line: its name, its floating and its booked result each to the nearest rupee, and their sum. */
  predicate ShowsFigure(l: Line, name: string, f: Figure) {
    && l.Member? && l.name == name && l.total == l.flt + l.bkd
    && -0.5 <= l.flt as real - f.floating <= 0.5 && -0.5 <= l.bkd as real - f.booked <= 0.5
  }

  /** Every strategy of a message that is sent has such a line. */
  lemma EachStrategyIsShown(meta: map<string, Meta>, order: seq<string>, figures: seq<Figure>, i: nat)
    requires Mapped(meta, figures) && i < |figures|
    requires forall r :: r in Rounded(meta, figures) ==> r.bucket in order
    ensures exists l :: l in Sections(Rounded(meta, figures), order)
                        && ShowsFigure(l, meta[figures[i].id].name, figures[i])
  {
    var rows := Rounded(meta, figures);
    assert rows[i] in rows;
    LineInSections(rows, order, rows[i]);
    assert ShowsFigure(MemberLine(rows[i]), meta[figures[i].id].name, figures[i]);
  }
}
