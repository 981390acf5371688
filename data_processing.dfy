/**
 The batch path a list of fetched posts takes: each post becomes an enriched
 record or is dropped, the records collected from the worker pool become a
 table with two derived columns, sorted by engagement, and a summary is
 computed over the table.

 The worker pool's completion order is an argument: any permutation of the
 input posts. The table is a sequence of rows.
 */
module DataProcessing {
  import opened SentimentAnalysis

  /** An attribute of a post object: its value, or an access that raises. */
  datatype Attribute<T> = Present(value: T) | Unreadable

  /**
   A fetched post as `process_post` sees it. `author` is `None` for a
   deleted account; `createdUtc` is the creation time in seconds.
   */
  datatype Post = Post(
    id: Attribute<string>,
    title: Attribute<string>,
    author: Attribute<Option<string>>,
    score: Attribute<int>,
    numComments: Attribute<int>,
    createdUtc: Attribute<real>)

  datatype Option<T> = None | Some(value: T)

  /** The two scoring libraries the pipeline is run with. */
  datatype Scorers = Scorers(polarity: Library, compound: Library)

  /** The dictionary `process_post` builds for one post. */
  datatype Record = Record(
    title: string,
    author: string,
    score: int,
    numComments: int,
    createdUtc: real,
    textBlobSentiment: real,
    vaderSentiment: real,
    classifiedSentiment: Label)

  /** What `process_post` does: return a record, return `None`, or raise out of its handler. */
  datatype PostOutcome = Processed(record: Record) | Skipped | Raised

  /** A table row: a record plus the two columns added after collection. */
  datatype Row = Row(rec: Record, sentimentDifference: real, engagementScore: int)

  /** What `process_posts_to_dataframe` returns, or the exception it lets through. */
  datatype BatchResult = Frame(rows: seq<Row>) | BatchRaised

  /** `str(post.author)`: a deleted author prints as "None". */
  function AuthorText(a: Option<string>): (t: string)
    ensures a.Some? ==> t == a.value
    ensures a.None? ==> t == "None"
  {
    match a
    case None => "None"
    case Some(name) => name
  }

  /**
   The `except` branch of `process_post`: logging it reads `post.id` and
   `post.title`; if either access raises, the exception leaves the handler.
   */
  function HandlerOutcome(p: Post): (o: PostOutcome)
    ensures o == Skipped || o == Raised
    ensures o == Skipped <==> p.id.Present? && p.title.Present?
  {
    if p.id.Present? && p.title.Present? then Skipped else Raised
  }

  /** The attributes the record assembly reads after the title. */
  predicate RecordFieldsReadable(p: Post)
  {
    p.author.Present? && p.score.Present? && p.numComments.Present? && p.createdUtc.Present?
  }

  /**
   `process_post`: score the title with both libraries, classify the VADER
   score and assemble the record; any attribute that cannot be read sends
   control to the handler.
   */
  function ProcessPost(p: Post, sc: Scorers): (o: PostOutcome)
    ensures o.Processed? <==> p.title.Present? && RecordFieldsReadable(p)
    ensures o.Skipped? <==> p.id.Present? && p.title.Present? && !RecordFieldsReadable(p)
    ensures o.Raised? <==> !p.title.Present? || (!p.id.Present? && !RecordFieldsReadable(p))
    ensures o.Processed? ==>
              && o.record.title == p.title.value
              && o.record.score == p.score.value
              && o.record.numComments == p.numComments.value
              && o.record.createdUtc == p.createdUtc.value
              && o.record.author == AuthorText(p.author.value)
              && o.record.textBlobSentiment == AnalyzeSentimentTextBlob(sc.polarity, p.title.value)
              && o.record.vaderSentiment == AnalyzeSentimentVader(sc.compound, p.title.value)
              && o.record.classifiedSentiment == Classify(o.record.vaderSentiment)
  {
    match p.title
    case Unreadable => HandlerOutcome(p)
    case Present(title) =>
      var textBlobScore := AnalyzeSentimentTextBlob(sc.polarity, title);
      var vaderScore := AnalyzeSentimentVader(sc.compound, title);
      var sentiment := ClassifySentiment(Num(vaderScore));
      if RecordFieldsReadable(p) then
        Processed(Record(title, AuthorText(p.author.value), p.score.value, p.numComments.value,
                         p.createdUtc.value, textBlobScore, vaderScore, sentiment))
      else
        HandlerOutcome(p)
  }

  /** The two derived columns hold their defining values. */
  predicate Consistent(row: Row)
  {
    && row.sentimentDifference == row.rec.textBlobSentiment - row.rec.vaderSentiment
    && row.engagementScore == row.rec.score + row.rec.numComments
  }

  /** The row the two column assignments give a record. */
  function Derive(rec: Record): (row: Row)
    ensures Consistent(row) && row.rec == rec
  {
    Row(rec, rec.textBlobSentiment - rec.vaderSentiment, rec.score + rec.numComments)
  }

  /** The two column assignments over a whole table of records. */
  function WithDerived(recs: seq<Record>): (rows: seq<Row>)
    ensures |rows| == |recs|
  {
    if recs == [] then [] else [Derive(recs[0])] + WithDerived(recs[1..])
  }

  /** The records a sequential collection of `process_post` results keeps, in order. */
  function Collected(ps: seq<Post>, sc: Scorers): (recs: seq<Record>)
    ensures |recs| <= |ps|
  {
    if ps == [] then []
    else
      var rest := Collected(ps[1..], sc);
      match ProcessPost(ps[0], sc)
      case Processed(rec) => [rec] + rest
      case _ => rest
  }

  /** The rows of the table built from the records `ps` yields, before sorting. */
  function Enriched(ps: seq<Post>, sc: Scorers): seq<Row>
  {
    WithDerived(Collected(ps, sc))
  }

  /** Some post of the batch raises out of `process_post`. */
  predicate SomeRaises(ps: seq<Post>, sc: Scorers)
  {
    exists p :: p in ps && ProcessPost(p, sc).Raised?
  }

  /** Some post of the batch is processed into `rec`. */
  ghost predicate FromBatch(ps: seq<Post>, sc: Scorers, rec: Record)
  {
    exists p :: p in ps && ProcessPost(p, sc) == Processed(rec)
  }

  /** Non-increasing in engagement score. */
  predicate Descending(rows: seq<Row>)
  {
    forall i, j :: 0 <= i < j < |rows| ==> rows[i].engagementScore >= rows[j].engagementScore
  }

  // ---------------------------------------------------------------------------
  // Sorting by engagement, descending

  /** Insert a row into a table sorted by descending engagement. */
  function Insert(row: Row, rows: seq<Row>): (r: seq<Row>)
    requires Descending(rows)
    ensures Descending(r)
    ensures multiset(r) == multiset(rows) + multiset{row}
    ensures |r| > 0 && (r[0] == row || (rows != [] && r[0] == rows[0]))
  {
    if rows == [] then [row]
    else if row.engagementScore >= rows[0].engagementScore then
      DescendingCons(row, rows);
      [row] + rows
    else
      assert rows == [rows[0]] + rows[1..];
      var tail := Insert(row, rows[1..]);
      DescendingCons(rows[0], tail);
      [rows[0]] + tail
  }

  /** A row no lower than the head of a descending table can go in front of it. */
  lemma DescendingCons(head: Row, rows: seq<Row>)
    requires Descending(rows)
    requires rows != [] ==> head.engagementScore >= rows[0].engagementScore
    ensures Descending([head] + rows)
  {
    var r := [head] + rows;
    forall i, j | 0 <= i < j < |r|
      ensures r[i].engagementScore >= r[j].engagementScore
    {
      if i == 0 {
        assert r[j] == rows[j - 1];
      } else {
        assert r[i] == rows[i - 1] && r[j] == rows[j - 1];
      }
    }
  }

  /**
   `df.sort_values('Engagement_Score', ascending=False)`. Only the order of
   engagement scores and the multiset of rows are specified; rows with
   equal engagement may come out in any order.
   */
  function SortByEngagement(rows: seq<Row>): (r: seq<Row>)
    ensures Descending(r)
    ensures multiset(r) == multiset(rows)
  {
    if rows == [] then []
    else
      assert rows == [rows[0]] + rows[1..];
      Insert(rows[0], SortByEngagement(rows[1..]))
  }

  // ---------------------------------------------------------------------------
  // The batch

  /**
   `process_posts_to_dataframe`. `completed` is the order in which the worker
   pool finished the posts: any permutation of `posts`. The first result
   whose `future.result()` raises ends the batch with that exception.
   */
  method ProcessPostsToDataFrame(posts: seq<Post>, completed: seq<Post>, sc: Scorers)
    returns (r: BatchResult)
    requires multiset(completed) == multiset(posts)
    ensures r.BatchRaised? <==> SomeRaises(posts, sc)
    ensures r.Frame? ==> multiset(r.rows) == multiset(Enriched(posts, sc))
    ensures r.Frame? ==> Descending(r.rows)
    ensures r.Frame? ==> |r.rows| == |Collected(posts, sc)| <= |posts|
    ensures r.Frame? ==> forall i :: 0 <= i < |r.rows| ==> Consistent(r.rows[i])
    ensures r.Frame? ==> forall i :: 0 <= i < |r.rows| ==> FromBatch(posts, sc, r.rows[i].rec)
    ensures r.Frame? ==> (r.rows == [] <==> forall p :: p in posts ==> !ProcessPost(p, sc).Processed?)
  {
    var results: seq<Record> := [];
    var i := 0;
    while i < |completed|
      invariant 0 <= i <= |completed|
      invariant results == Collected(completed[..i], sc)
      invariant forall j :: 0 <= j < i ==> !ProcessPost(completed[j], sc).Raised?
      decreases |completed| - i
    {
      assert completed[i] in multiset(posts);
      CollectedSnoc(completed[..i], completed[i], sc);
      assert completed[..i + 1] == completed[..i] + [completed[i]];
      match ProcessPost(completed[i], sc) {
        case Raised =>
          return BatchRaised;
        case Skipped =>
        case Processed(rec) =>
          results := results + [rec];
      }
      i := i + 1;
    }
    assert completed[..i] == completed;
    forall p | p in posts
      ensures !ProcessPost(p, sc).Raised?
    {
      assert p in multiset(completed);
    }
    CollectedPermutation(completed, posts, sc);
    CollectedEmpty(posts, sc);
    if results == [] {
      assert |Collected(posts, sc)| == |Enriched(posts, sc)| == |multiset(Enriched(posts, sc))| == 0;
      return Frame([]);
    }
    r := Frame(SortByEngagement(WithDerived(results)));
    assert |r.rows| == |multiset(r.rows)| == |multiset(Enriched(posts, sc))| == |Collected(posts, sc)|;
    RowsComeFromPosts(posts, completed, sc, r.rows);
  }

  // ---------------------------------------------------------------------------
  // Lemmas about collection

  /**
   Rows that are a permutation of the derived records collected in some
   completion order hold consistent derived columns, and each comes from a
   post of the batch processed into its record.
   */
  lemma RowsComeFromPosts(posts: seq<Post>, completed: seq<Post>, sc: Scorers, rows: seq<Row>)
    requires multiset(completed) == multiset(posts)
    requires multiset(rows) == multiset(Enriched(completed, sc))
    ensures forall k :: 0 <= k < |rows| ==> Consistent(rows[k])
    ensures forall k :: 0 <= k < |rows| ==> FromBatch(posts, sc, rows[k].rec)
  {
    var results := Collected(completed, sc);
    var derived := WithDerived(results);
    WithDerivedConsistent(results);
    forall k | 0 <= k < |rows|
      ensures Consistent(rows[k])
      ensures FromBatch(posts, sc, rows[k].rec)
    {
      assert rows[k] in multiset(derived);
      var m :| 0 <= m < |derived| && derived[m] == rows[k];
      assert results[m] in results;
      CollectedMembership(completed, sc, results[m]);
      var p :| p in completed && ProcessPost(p, sc) == Processed(results[m]);
      assert p in multiset(posts);
      assert rows[k].rec == results[m];
      assert p in posts && ProcessPost(p, sc) == Processed(rows[k].rec);
    }
  }

  lemma {:induction false} CollectedAppend(u: seq<Post>, v: seq<Post>, sc: Scorers)
    ensures Collected(u + v, sc) == Collected(u, sc) + Collected(v, sc)
  {
    if u == [] {
      assert u + v == v;
    } else {
      assert (u + v)[1..] == u[1..] + v;
      CollectedAppend(u[1..], v, sc);
    }
  }

  lemma CollectedSnoc(s: seq<Post>, p: Post, sc: Scorers)
    ensures Collected(s + [p], sc)
            == Collected(s, sc) + (if ProcessPost(p, sc).Processed? then [ProcessPost(p, sc).record] else [])
  {
    CollectedAppend(s, [p], sc);
  }

  /** A record is collected exactly when some post of the batch is processed into it. */
  lemma {:induction false} CollectedMembership(ps: seq<Post>, sc: Scorers, rec: Record)
    ensures rec in Collected(ps, sc) <==> exists p :: p in ps && ProcessPost(p, sc) == Processed(rec)
  {
    if ps != [] {
      CollectedMembership(ps[1..], sc, rec);
      assert forall p :: p in ps <==> p == ps[0] || p in ps[1..];
    }
  }

  /** Nothing is collected exactly when no post is processed successfully (an empty batch included). */
  lemma {:induction false} CollectedEmpty(ps: seq<Post>, sc: Scorers)
    ensures Collected(ps, sc) == [] <==> forall p :: p in ps ==> !ProcessPost(p, sc).Processed?
  {
    if ps != [] {
      CollectedEmpty(ps[1..], sc);
      assert forall p :: p in ps <==> p == ps[0] || p in ps[1..];
    }
  }

  lemma {:induction false} WithDerivedAppend(u: seq<Record>, v: seq<Record>)
    ensures WithDerived(u + v) == WithDerived(u) + WithDerived(v)
  {
    if u == [] {
      assert u + v == v;
    } else {
      assert (u + v)[1..] == u[1..] + v;
      WithDerivedAppend(u[1..], v);
    }
  }

  /** Every row of the derived table holds its defining column values and its record. */
  lemma {:induction false} WithDerivedConsistent(recs: seq<Record>)
    ensures forall k :: 0 <= k < |recs| ==> WithDerived(recs)[k] == Derive(recs[k])
    ensures forall k :: 0 <= k < |recs| ==> Consistent(WithDerived(recs)[k])
  {
    if recs != [] {
      WithDerivedConsistent(recs[1..]);
    }
  }

  /**
   The records collected do not depend on the completion order: any
   permutation of the batch yields a permutation of the derived rows.
   */
  lemma {:induction false} CollectedPermutation(a: seq<Post>, b: seq<Post>, sc: Scorers)
    requires multiset(a) == multiset(b)
    ensures multiset(Enriched(a, sc)) == multiset(Enriched(b, sc))
    decreases |a|
  {
    if a == [] {
      assert b == [] by {
        assert |b| == |multiset(b)| == 0;
      }
    } else {
      var x := a[0];
      assert x in multiset(b);
      var i :| 0 <= i < |b| && b[i] == x;
      var b1, b2 := b[..i], b[i + 1..];
      assert b == b1 + [x] + b2;
      assert a == [x] + a[1..];
      assert multiset(a[1..]) == multiset(b1 + b2) by {
        assert multiset(a) == multiset{x} + multiset(a[1..]);
        assert multiset(b) == multiset(b1 + [x]) + multiset(b2) == multiset(b1) + multiset{x} + multiset(b2);
        assert multiset(b1 + b2) == multiset(b1) + multiset(b2);
        assert multiset(a[1..]) == multiset(a) - multiset{x};
        assert multiset(b1 + b2) == multiset(b) - multiset{x};
      }
      CollectedPermutation(a[1..], b1 + b2, sc);
      var cx := Collected([x], sc);
      CollectedAppend([x], a[1..], sc);
      CollectedAppend(b1 + [x], b2, sc);
      CollectedAppend(b1, [x], sc);
      CollectedAppend(b1, b2, sc);
      var c1, c2, ca := Collected(b1, sc), Collected(b2, sc), Collected(a[1..], sc);
      WithDerivedAppend(cx, ca);
      WithDerivedAppend(c1 + cx, c2);
      WithDerivedAppend(c1, cx);
      WithDerivedAppend(c1, c2);
    }
  }

  // ---------------------------------------------------------------------------
  // Summary statistics

  /** The numeric columns the summary reads. */
  datatype Column = ScoreColumn | CommentsColumn | TextBlobColumn | VaderColumn | EngagementColumn

  function Value(row: Row, c: Column): real
  {
    match c
    case ScoreColumn => row.rec.score as real
    case CommentsColumn => row.rec.numComments as real
    case TextBlobColumn => row.rec.textBlobSentiment
    case VaderColumn => row.rec.vaderSentiment
    case EngagementColumn => row.engagementScore as real
  }

  function Sum(rows: seq<Row>, c: Column): real
  {
    if rows == [] then 0.0 else Value(rows[0], c) + Sum(rows[1..], c)
  }

  /** `Series.mean()`: the column sum over the row count. */
  function Mean(rows: seq<Row>, c: Column): (m: real)
    requires rows != []
    ensures IsMeanOf(rows, c, m)
  {
    DivisionCancels(Sum(rows, c), |rows| as real);
    Sum(rows, c) / (|rows| as real)
  }

  /**
   `Series.idxmax()`: the first row, in table order, holding the column's
   largest value.
   */
  function ArgMax(rows: seq<Row>, c: Column): (k: nat)
    requires rows != []
    ensures k < |rows|
    ensures forall j :: 0 <= j < |rows| ==> Value(rows[j], c) <= Value(rows[k], c)
    ensures forall j :: 0 <= j < k ==> Value(rows[j], c) < Value(rows[k], c)
  {
    if |rows| == 1 then 0
    else
      var k := ArgMax(rows[..|rows| - 1], c);
      if Value(rows[|rows| - 1], c) > Value(rows[k], c) then |rows| - 1 else k
  }

  /**
   `Series.idxmin()`: the first row, in table order, holding the column's
   smallest value.
   */
  function ArgMin(rows: seq<Row>, c: Column): (k: nat)
    requires rows != []
    ensures k < |rows|
    ensures forall j :: 0 <= j < |rows| ==> Value(rows[k], c) <= Value(rows[j], c)
    ensures forall j :: 0 <= j < k ==> Value(rows[k], c) < Value(rows[j], c)
  {
    if |rows| == 1 then 0
    else
      var k := ArgMin(rows[..|rows| - 1], c);
      if Value(rows[|rows| - 1], c) < Value(rows[k], c) then |rows| - 1 else k
  }

  /** The number of rows with a given label. */
  function Count(rows: seq<Row>, l: Label): (n: nat)
    ensures n <= |rows|
  {
    if rows == [] then 0
    else (if rows[0].rec.classifiedSentiment == l then 1 else 0) + Count(rows[1..], l)
  }

  const AllLabels: set<Label> := {Negative, Neutral, Positive}

  /** `value_counts().to_dict()`: each label that occurs, with its count. */
  function Distribution(rows: seq<Row>): (d: map<Label, nat>)
    ensures forall l :: l in d <==> Count(rows, l) > 0
    ensures forall l :: l in d ==> d[l] == Count(rows, l)
  {
    map l | l in AllLabels && Count(rows, l) > 0 :: Count(rows, l)
  }

  /** The counts a distribution holds, added up over the three labels. */
  function Tally(d: map<Label, nat>): nat
  {
    (if Negative in d then d[Negative] else 0)
    + (if Neutral in d then d[Neutral] else 0)
    + (if Positive in d then d[Positive] else 0)
  }

  /** The dictionary `generate_summary_stats` returns. */
  datatype Summary = Summary(
    totalPosts: nat,
    averageScore: real,
    averageComments: real,
    sentimentDistribution: map<Label, nat>,
    averageTextBlobSentiment: real,
    averageVaderSentiment: real,
    mostPositivePost: string,
    mostNegativePost: string,
    mostEngagingPost: string)

  /**
   The summary, or the KeyError the empty `pd.DataFrame()` raises when a
   column is looked up in it.
   */
  datatype SummaryResult = Stats(summary: Summary) | NoColumns

  /** `t` is the title of a row whose value in column `c` is at least every row's. */
  ghost predicate TitleOfMax(rows: seq<Row>, c: Column, t: string)
  {
    exists k :: 0 <= k < |rows| && rows[k].rec.title == t &&
      forall j :: 0 <= j < |rows| ==> Value(rows[j], c) <= Value(rows[k], c)
  }

  /** `t` is the title of a row whose value in column `c` is at most every row's. */
  ghost predicate TitleOfMin(rows: seq<Row>, c: Column, t: string)
  {
    exists k :: 0 <= k < |rows| && rows[k].rec.title == t &&
      forall j :: 0 <= j < |rows| ==> Value(rows[k], c) <= Value(rows[j], c)
  }

  /** `generate_summary_stats`. */
  function GenerateSummaryStats(rows: seq<Row>): (r: SummaryResult)
    ensures r.NoColumns? <==> rows == []
    ensures r.Stats? ==> r.summary.totalPosts == |rows|
  {
    if rows == [] then NoColumns
    else
      Stats(Summary(
        |rows|,
        Mean(rows, ScoreColumn),
        Mean(rows, CommentsColumn),
        Distribution(rows),
        Mean(rows, TextBlobColumn),
        Mean(rows, VaderColumn),
        rows[ArgMax(rows, VaderColumn)].rec.title,
        rows[ArgMin(rows, VaderColumn)].rec.title,
        rows[ArgMax(rows, EngagementColumn)].rec.title))
  }

  /**
   The distribution of a non-empty table's summary counts exactly the labels
   that occur, and its counts add up to the row count.
   */
  lemma SummaryDistribution(rows: seq<Row>)
    requires rows != []
    ensures GenerateSummaryStats(rows).Stats?
    ensures var s := GenerateSummaryStats(rows).summary;
      && (forall l :: l in s.sentimentDistribution <==> Count(rows, l) > 0)
      && (forall l :: l in s.sentimentDistribution ==> s.sentimentDistribution[l] == Count(rows, l))
      && Tally(s.sentimentDistribution) == s.totalPosts
  {
    DistributionTotal(rows);
  }

  /** The three titles of a non-empty table's summary belong to rows holding the extreme values. */
  lemma SummaryExtrema(rows: seq<Row>)
    requires rows != []
    ensures GenerateSummaryStats(rows).Stats?
    ensures var s := GenerateSummaryStats(rows).summary;
      && TitleOfMax(rows, VaderColumn, s.mostPositivePost)
      && TitleOfMin(rows, VaderColumn, s.mostNegativePost)
      && TitleOfMax(rows, EngagementColumn, s.mostEngagingPost)
  {
  }

  /** Each mean of a non-empty table's summary, times the row count, is the column sum. */
  lemma SummaryMeans(rows: seq<Row>)
    requires rows != []
    ensures GenerateSummaryStats(rows).Stats?
    ensures var s := GenerateSummaryStats(rows).summary;
      && IsMeanOf(rows, ScoreColumn, s.averageScore)
      && IsMeanOf(rows, CommentsColumn, s.averageComments)
      && IsMeanOf(rows, TextBlobColumn, s.averageTextBlobSentiment)
      && IsMeanOf(rows, VaderColumn, s.averageVaderSentiment)
  {
    var s := GenerateSummaryStats(rows).summary;
    assert s.averageScore == Mean(rows, ScoreColumn);
    assert s.averageComments == Mean(rows, CommentsColumn);
    assert s.averageTextBlobSentiment == Mean(rows, TextBlobColumn);
    assert s.averageVaderSentiment == Mean(rows, VaderColumn);
  }


  /** `m` times the row count is the column sum. */
  ghost predicate IsMeanOf(rows: seq<Row>, c: Column, m: real)
  {
    m * (|rows| as real) == Sum(rows, c)
  }


  /** The per-label counts add up to the row count. */
  lemma {:induction false} CountsSumToTotal(rows: seq<Row>)
    ensures Count(rows, Negative) + Count(rows, Neutral) + Count(rows, Positive) == |rows|
  {
    if rows != [] {
      CountsSumToTotal(rows[1..]);
    }
  }

  /** The distribution's counts add up to the row count. */
  lemma DistributionTotal(rows: seq<Row>)
    ensures Tally(Distribution(rows)) == |rows|
  {
    CountsSumToTotal(rows);
  }

  /** A column sum lies between the row count times a lower and an upper bound on the column. */
  lemma SumBounds(rows: seq<Row>, c: Column, lo: real, hi: real)
    requires forall j :: 0 <= j < |rows| ==> lo <= Value(rows[j], c) <= hi
    ensures lo * (|rows| as real) <= Sum(rows, c) <= hi * (|rows| as real)
  {
    SumAtLeast(rows, c, lo);
    SumAtMost(rows, c, hi);
  }

  lemma {:induction false} SumAtLeast(rows: seq<Row>, c: Column, lo: real)
    requires forall j :: 0 <= j < |rows| ==> lo <= Value(rows[j], c)
    ensures lo * (|rows| as real) <= Sum(rows, c)
  {
    if rows != [] {
      var n := |rows[1..]| as real;
      SumAtLeast(rows[1..], c, lo);
      assert lo <= Value(rows[0], c);
      assert |rows| as real == n + 1.0;
      ScaleByOneMore(lo, n);
    }
  }

  lemma {:induction false} SumAtMost(rows: seq<Row>, c: Column, hi: real)
    requires forall j :: 0 <= j < |rows| ==> Value(rows[j], c) <= hi
    ensures Sum(rows, c) <= hi * (|rows| as real)
  {
    if rows != [] {
      var n := |rows[1..]| as real;
      SumAtMost(rows[1..], c, hi);
      assert Value(rows[0], c) <= hi;
      assert |rows| as real == n + 1.0;
      ScaleByOneMore(hi, n);
    }
  }

  lemma ScaleByOneMore(x: real, n: real)
    ensures x * (n + 1.0) == x * n + x
  {
  }

  /** A mean lies within any bounds that hold of every value of its column. */
  lemma MeanBounds(rows: seq<Row>, c: Column, lo: real, hi: real)
    requires rows != []
    requires forall j :: 0 <= j < |rows| ==> lo <= Value(rows[j], c) <= hi
    ensures lo <= Mean(rows, c) <= hi
  {
    SumBounds(rows, c, lo, hi);
    DivisionBounds(Sum(rows, c), |rows| as real, lo, hi);
  }

  lemma DivisionCancels(s: real, n: real)
    requires n != 0.0
    ensures (s / n) * n == s
  {
  }

  /** Every mean of the summary lies between the column's smallest and largest value. */
  lemma MeanBetweenExtrema(rows: seq<Row>, c: Column)
    requires rows != []
    ensures Value(rows[ArgMin(rows, c)], c) <= Mean(rows, c) <= Value(rows[ArgMax(rows, c)], c)
  {
    MeanBounds(rows, c, Value(rows[ArgMin(rows, c)], c), Value(rows[ArgMax(rows, c)], c));
  }

  lemma DivisionBounds(s: real, n: real, lo: real, hi: real)
    requires n > 0.0 && lo * n <= s <= hi * n
    ensures lo <= s / n <= hi
  {
  }

  /** On a one-row table every extremum is that row's title and every mean is its value. */
  lemma SingleRowSummary(row: Row)
    ensures GenerateSummaryStats([row]).Stats?
    ensures GenerateSummaryStats([row]).summary.mostPositivePost == row.rec.title
    ensures GenerateSummaryStats([row]).summary.mostNegativePost == row.rec.title
    ensures GenerateSummaryStats([row]).summary.mostEngagingPost == row.rec.title
    ensures GenerateSummaryStats([row]).summary.averageScore == row.rec.score as real
  {
    assert Sum([row], ScoreColumn) == Value(row, ScoreColumn) + Sum([], ScoreColumn);
  }

  // ---------------------------------------------------------------------------
  // Worked examples

  /** A negative score still adds to the comment count: -3 + 5 = 2. */
  lemma EngagementWithNegativeScore(rec: Record)
    requires rec.score == -3 && rec.numComments == 5
    ensures Derive(rec).engagementScore == 2
  {
  }

  /** Engagements [10, 50, 30] are ranked [50, 30, 10]. */
  lemma RankingExample(a: Row, b: Row, c: Row)
    requires a.engagementScore == 10 && b.engagementScore == 50 && c.engagementScore == 30
    ensures SortByEngagement([a, b, c]) == [b, c, a]
  {
  }

  /**
   A batch of five posts whose third cannot give its score, but whose id and
   title can be read, yields the other four records and raises nothing.
   */
  lemma PartialFailureExample(ps: seq<Post>, sc: Scorers)
    requires |ps| == 5
    requires forall k :: 0 <= k < 5 && k != 2 ==> ps[k].title.Present? && RecordFieldsReadable(ps[k])
    requires ps[2].id.Present? && ps[2].title.Present? && ps[2].score.Unreadable?
    ensures !SomeRaises(ps, sc)
    ensures |Collected(ps, sc)| == 4
  {
    assert ps == [ps[0], ps[1], ps[2], ps[3], ps[4]];
    assert ps[4..][1..] == [];
    assert |Collected(ps[4..], sc)| == 1;
    assert ps[3..][1..] == ps[4..];
    assert |Collected(ps[3..], sc)| == 2;
    assert ps[2..][1..] == ps[3..];
    assert |Collected(ps[2..], sc)| == 2;
    assert ps[1..][1..] == ps[2..];
    assert |Collected(ps[1..], sc)| == 3;
  }
}
