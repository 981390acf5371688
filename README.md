# Reddit post sentiment pipeline — a Dafny model

This project models the deterministic core of a small Reddit sentiment
analyser: the path a batch of fetched posts takes once they are in memory.

- `sentiment_analysis.dfy` (module `SentimentAnalysis`): the two scorer
  wrappers (TextBlob polarity, VADER compound score), which turn an exception
  inside the library into the neutral score 0.0, and the classifier, a fixed
  threshold rule on the VADER score (at least 0.05 is Positive, at most -0.05
  is Negative, anything else Neutral, and Neutral again if the comparison
  raises). The libraries themselves are function-valued parameters
  `string -> ScoreOutcome`, so a score is a deterministic function of the text.
- `data_processing.dfy` (module `DataProcessing`): `process_post` (one post
  becomes a record, `None`, or an exception that escapes its own handler),
  `process_posts_to_dataframe` (a method with the fan-in loop over the
  worker pool's completion order, then the two derived columns and the sort
  by engagement, descending) and `generate_summary_stats` (row count, label
  distribution, means, and the titles of the extreme rows).

Post attributes are `Attribute<T>`: either a value or an access that raises.
The order in which the worker pool finishes the posts is an argument of the
batch method: any permutation of the input. Scores are `real`; the table is a
sequence of rows.

Behaviour of the code worth knowing:

- The handler of `process_post` (data_processing.py:38-40) reads `post.id`
  and reads `post.title` again. When either cannot be read, the handler
  itself raises, `future.result()` re-raises it, and the whole batch fails
  (`BatchRaised`). A post whose title cannot be read therefore never gets
  dropped quietly. It always sinks the batch.
- A failed post becomes `None`; its cause is only logged.
- Sorting uses pandas' default sort, which is not stable. The model claims
  only that the rows are non-increasing in engagement and a permutation of
  the collected rows. No order among equal engagements is promised.
- `generate_summary_stats` on the empty `pd.DataFrame()` raises a KeyError,
  since that frame has no columns. The model returns `NoColumns` for it.

## Model

| member | source | states |
|---|---|---|
| SentimentAnalysis.Classify | sentiment_analysis.py:64-69 | Positive exactly when the score is at least 0.05; Negative exactly when it is at most -0.05; Neutral exactly when it lies strictly between them (so the branches never overlap) |
| SentimentAnalysis.ClassifySentiment | sentiment_analysis.py:55-75 | a number is classified by the threshold rule; a NaN (both comparisons false) and an incomparable value (the handler) give Neutral |
| SentimentAnalysis.AnalyzeSentimentTextBlob | sentiment_analysis.py:21-36 | the library's polarity when it computes one, 0.0 when it raises |
| SentimentAnalysis.AnalyzeSentimentVader | sentiment_analysis.py:38-53 | the library's compound score when it computes one, 0.0 when it raises |
| SentimentAnalysis.ClassifyMonotone | sentiment_analysis.py:64-69 | x1 <= x2 implies the label of x1 is not above the label of x2 in Negative < Neutral < Positive |
| SentimentAnalysis.ClassifyBoundaries | sentiment_analysis.py:64-69 | 0.05 is Positive, 0.049999 Neutral, -0.05 Negative, -0.049999 Neutral, 0.0 Neutral |
| SentimentAnalysis.FailedScoreIsNeutral | sentiment_analysis.py:51-53 | a VADER call that fails yields 0.0, which is classified Neutral |
| SentimentAnalysis.WrappersWithinUnitRange | sentiment_analysis.py:21-53 | if the libraries keep to their documented [-1, 1] range, so do both wrappers |
| DataProcessing.AuthorText | data_processing.py:30 | `str(post.author)`: the author's name, or the text "None" for a deleted account |
| DataProcessing.HandlerOutcome | data_processing.py:38-40 | the handler returns None exactly when the post's id and title can both be read, and raises otherwise |
| DataProcessing.ProcessPost | data_processing.py:12-40 | a record exactly when title, author, score, comment count and timestamp can be read; None exactly when id and title can be read but some other field cannot; an escaping exception otherwise; the record copies title, score, comment count and creation time unchanged, renders the author, holds both wrapper scores and the label of the VADER score |
| DataProcessing.Derive | data_processing.py:69-70 | the row keeps its record and has Sentiment_Difference = TextBlob - VADER and Engagement_Score = Score + Num_Comments |
| DataProcessing.WithDerived | data_processing.py:69-70 | the two column assignments over the whole table give exactly one row per record (with `WithDerivedConsistent`, row k is record k with its derived columns) |
| DataProcessing.WithDerivedConsistent | data_processing.py:69-70 | every row of the derived table is its record with both derived columns holding their defining values |
| DataProcessing.Insert | data_processing.py:73 | inserting into a table sorted by descending engagement keeps it sorted and adds exactly that row |
| DataProcessing.SortByEngagement | data_processing.py:73 | the result is non-increasing in engagement and a permutation of the input rows |
| DataProcessing.ProcessPostsToDataFrame | data_processing.py:42-76 | for any completion order: the batch raises exactly when some post raises out of its handler; otherwise the rows are a permutation of the enriched records of the successful posts, sorted by descending engagement, each with consistent derived columns and each from some post of the batch, their number is the number of successes and at most the number of posts, and the table is empty exactly when no post succeeds |
| DataProcessing.Collected | data_processing.py:57-60 | the records kept from the completed results, in completion order, never outnumber the posts |
| DataProcessing.RowsComeFromPosts | data_processing.py:57-73 | every row of a permutation of the derived collected records has consistent derived columns and holds the record of some post of the batch |
| DataProcessing.CollectedMembership | data_processing.py:55-60 | a record is collected exactly when some post of the batch is processed into it |
| DataProcessing.CollectedEmpty | data_processing.py:62-64 | nothing is collected, an empty batch included, exactly when no post is processed into a record |
| DataProcessing.CollectedAppend | data_processing.py:57-60 | collecting two runs of posts one after the other gives the records of the first run followed by those of the second |
| DataProcessing.CollectedPermutation | data_processing.py:55-57 | the enriched rows do not depend on the completion order: permuted posts give permuted rows |
| DataProcessing.ArgMax | data_processing.py:95-97 | idxmax: a row whose value is at least every row's, and the first such row in table order |
| DataProcessing.ArgMin | data_processing.py:96 | idxmin: a row whose value is at most every row's, and the first such row in table order |
| DataProcessing.Count | data_processing.py:92 | a label's count never exceeds the row count |
| DataProcessing.Distribution | data_processing.py:92 | a label is a key exactly when it occurs, and maps to its number of rows |
| DataProcessing.CountsSumToTotal | data_processing.py:92 | the three label counts add up to the row count |
| DataProcessing.DistributionTotal | data_processing.py:89-92 | the distribution's counts add up to the row count |
| DataProcessing.GenerateSummaryStats | data_processing.py:78-98 | a summary exactly when the table is non-empty (KeyError otherwise), with Total_Posts equal to the row count |
| DataProcessing.SummaryDistribution | data_processing.py:89-92 | the summary's distribution counts exactly the labels that occur, and its counts add up to Total_Posts |
| DataProcessing.SummaryExtrema | data_processing.py:95-97 | Most_Positive_Post and Most_Engaging_Post are titles of rows with maximal VADER score and engagement; Most_Negative_Post is the title of a row with minimal VADER score |
| DataProcessing.SummaryMeans | data_processing.py:90-94 | each of the four averages times the row count is its column's sum |
| DataProcessing.Mean | data_processing.py:90-94 | `Series.mean()`: the value that, times the row count, gives the column sum (`MeanBounds` and `MeanBetweenExtrema` place it within the column's range) |
| DataProcessing.SumBounds | data_processing.py:90-94 | a column sum lies between the row count times any lower and upper bound on the column |
| DataProcessing.MeanBounds | data_processing.py:90-94 | a mean lies within any bounds that hold of every value of its column |
| DataProcessing.MeanBetweenExtrema | data_processing.py:90-94 | a mean lies between the column's smallest and largest value |
| DataProcessing.SingleRowSummary | data_processing.py:88-98 | on a one-row table all three extrema are that row's title and the average score is its score |
| DataProcessing.EngagementWithNegativeScore | data_processing.py:70 | score -3 with 5 comments gives engagement 2 |
| DataProcessing.RankingExample | data_processing.py:73 | engagements [10, 50, 30] are ranked [50, 30, 10] |
| DataProcessing.PartialFailureExample | data_processing.py:53-60 | five posts of which the third lacks its score but has id and title: nothing raises and four records are collected |

## Left out

- The internals of TextBlob polarity and the VADER compound score: foreign libraries, passed in as functions. Their [-1, 1] range appears only as the hypothesis of `WrappersWithinUnitRange`.
- The VADER lexicon download and analyser construction at import time (sentiment_analysis.py:11-18), and every logging call: I/O with no effect on the results.
- `ThreadPoolExecutor` scheduling and `max_workers`: the pool is reduced to the order in which it completes the posts, which is an argument of `ProcessPostsToDataFrame`.
- The order of rows with equal engagement: pandas' default sort is not stable and the completion order is nondeterministic. `SortByEngagement` fixes one order, but no contract states it.
- `pd.to_datetime` (data_processing.py:33): the timestamp is kept as seconds. Its out-of-range failure is covered by the timestamp attribute being `Unreadable`.
- The in-place column assignments on the data frame (data_processing.py:69-70) are modelled as building new rows. The frame is local to the function, so no caller can observe the difference.
- Floating-point rounding in the scores, the derived difference and the means: all are `real`. NaN values inside the columns are not modelled, so pandas skipping NaN in `mean`/`idxmax` is not modelled either.
- The key order of `value_counts().to_dict()` (data_processing.py:92), which is by descending count: the distribution is a `map`, so its keys have no order.
- 64-bit overflow of `Score + Num_Comments`: integers are unbounded.
- reddit_api.py (credentials, client construction, fetching posts) and app.py (the Streamlit page, charts, CSV download) are not part of this model. Both are I/O.
- The `__main__` demonstration blocks of both files.
