# Message activity time series — a verified model

`fb_to_ts.py` turns an exported message archive into one activity series per
two-person conversation. It does this in four steps:

- It loads every conversation and keeps only those between the owner and
  exactly one other person. Each kept conversation is named after that
  person, or after the next name of an anonymisation pool.
- It finds one shared time axis: the earliest first message and the latest
  last message.
- It cuts the axis into equal windows of width `increment` and counts each
  conversation's messages per window. The counting uses a single forward
  cursor.
- It writes a report. There is one row per conversation, except the
  placeholder account `"Facebook User"`. Each row holds a trailing 120-window
  moving average of the counts, under column labels that are the windows'
  cutoff times, plus an image link made from the person's initials.

This project models that pipeline in Dafny. Times are integers. The
increment is a positive integer. A message is `(time, author)`, and the
windows dictionary is an ordered sequence of `(start, cutoff)` windows. Means
are exact rationals (`real`).

The code that changes things step by step is written as methods with loops
that mirror the source:

- the layout loop, the per-window cursor loop and the loop over windows;
- the moving-average buffer;
- the bounds fold;
- the participant set;
- the loader's filter with its name counter;
- the cutoff-label loop;
- the row loop.

Each method is proved against a reference function:

- `Windows.WindowCount` and `Windows.Layout` for the windows;
- `Binning.Take` and `Binning.Assign` for the cursor. `Assign` is a
  recursive merge in which each window takes the longest run of remaining
  messages it contains;
- `Smoothing.TrailingMean`;
- `Loader.Authors` and `Loader.KeptConvos`;
- `Report.Retained` and `Report.RowOf`.

The lemmas then state what the source promises about those functions.

Modules, one file each:

- `wrappers.dfy`: `Option`.
- `timeline.dfy`: messages, threads, windows, `Sorted`, `Sum`.
- `windows.dfy`: the window layout.
- `binning.dfy`: `bin_thread_by_messages` and `thread_to_num_messages`.
- `smoothing.dfy`: `n_step_moving_average`.
- `bounds.dfy`: `get_convo_bounds`.
- `loader.dfy`: `get_thread_participants` and the filter in `load_threads`.
- `initials.dfy`: `get_initials_link`.
- `report.dfy`: `compute_thread_scores` and `build_csv`.

What the code does with messages and series that do not fit the layout:

- **A message earlier than the current window stops the cursor.** That
  message is never placed, and neither is anything after it
  (`Binning.EarlyMessageStallsCursor`).
- **Messages in `[last cutoff, end_time]` are never counted.** Only windows
  whose cutoff is at most `end_time` exist. So for a sorted thread, every
  message is counted exactly when every message lies in
  `[start_time, start_time + n * increment)` (`Binning.AllCountedIffInSpan`).
- **Series and labels are paired with `zip`, which silently truncates.**
  `Report.RowOf` models the truncation. `Report.BuildCsv` proves that no
  truncation happens for an aligned snapshot, and `Report.ComputeThreadScores`
  proves that every snapshot it produces is aligned.

## Model

| member | source | states |
|---|---|---|
| Windows.WindowCount | fb_to_ts.py:84-87 | the layout loop emits n windows: when n > 0 the last cutoff start + n·increment is at most end_time, one more window would end past end_time, and there are none exactly when end_time − start_time < increment |
| Windows.WindowCountIsQuotient | fb_to_ts.py:84-87 | on a non-empty range the number of windows is (end_time − start_time) div increment |
| Windows.LayoutShape | fb_to_ts.py:81-87 | window k is [start + k·increment, start + (k+1)·increment): width increment, inside [start_time, end_time], each cutoff the next window's start, the first starting at start_time |
| Windows.LayoutAscending | fb_to_ts.py:84-87 | window starts strictly increase, so the dictionary's keys are distinct and in ascending order |
| Binning.Take | fb_to_ts.py:90-99 | how far the cursor moves in one window: every message it passes lies in the window, and the message it stops at (if any) does not |
| Binning.TakeExactly | fb_to_ts.py:90-99 | the cursor's stopping point is unique: any run of in-window messages ended by the end of the thread or an out-of-window message has exactly Take's length |
| Binning.AssignInWindow | fb_to_ts.py:95-97 | every message placed in bin k lies inside window k |
| Binning.AssignIsPrefix | fb_to_ts.py:88-99 | the bins read in window order are a prefix of the thread's messages: none counted twice, none skipped |
| Binning.TotalAtMostMessages | fb_to_ts.py:88-99 | the counts of all windows add up to at most the number of messages |
| Binning.AssignComplete | fb_to_ts.py:88-99 | over chained windows, sorted messages lying between the first start and the last cutoff are all placed |
| Binning.PlacedInSpan | fb_to_ts.py:95-97 | every placed message lies in the span the windows cover |
| Binning.AllCountedIffInSpan | fb_to_ts.py:80-99 | for a sorted thread, all messages are counted exactly when all lie in [start_time, start_time + n·increment) |
| Binning.EarlyMessageStallsCursor | fb_to_ts.py:92-99 | a message earlier than every window is never placed, and nothing after it is placed either |
| Binning.EmptyBins | fb_to_ts.py:81-87 | the window loop creates one empty bin per window of the layout, in layout order |
| Binning.FillWindow | fb_to_ts.py:90-99 | the inner loop advances the cursor by exactly Take (it never moves back) and places exactly the messages it passes |
| Binning.AssignStep | fb_to_ts.py:89-99 | one turn of the loop over windows is one step of the reference merge: window j receives the next Take messages and the windows after it see the rest |
| Binning.FillBins | fb_to_ts.py:88-99 | the cursor loop leaves every window in place and gives bin k exactly Assign(windows, messages)[k] |
| Binning.BinThread | fb_to_ts.py:80-100 | the result has one bin per layout window, bin k has window k and holds the reference merge's k-th bin |
| Binning.InsertByStart | fb_to_ts.py:113 | inserting into bins ascending by start yields bins ascending by start, one longer |
| Binning.InsertByStartPermutes | fb_to_ts.py:113 | insertion adds the new bin and loses nothing (multiset) |
| Binning.SortByStart | fb_to_ts.py:113 | the sort by window start yields bins ascending by start, as many as it was given |
| Binning.SortByStartPermutes | fb_to_ts.py:113 | the sort is a permutation of its input (multiset) |
| Binning.SortByStartKeepsAscending | fb_to_ts.py:113 | bins already in strictly ascending start order come out of the sort unchanged |
| Binning.LayoutBinsSorted | fb_to_ts.py:112-113 | sorting the binner's output by start changes nothing |
| Binning.CountsMeaning | fb_to_ts.py:111-116 | the count vector has one entry per window and totals at most the number of messages; for a sorted thread it totals all of them exactly when every message lies in [start_time, last cutoff) |
| Binning.ThreadToNumMessages | fb_to_ts.py:111-116 | one count per window, in ascending window order, each the size of that window's bin in the reference merge, with the total bounds above |
| Smoothing.MovingAverage | fb_to_ts.py:103-108 | one value per input; value i is the mean of the inputs from BufferStart(n, i) through i, i.e. of the buffer cut to its last n items |
| Smoothing.MovingAverageOfOne | fb_to_ts.py:103-108 | with n = 1 each smoothed value is the input itself |
| Smoothing.MeanWithinBounds | fb_to_ts.py:108 | a mean lies between the least and the greatest value averaged |
| Smoothing.TrailingMeanNonNegative | fb_to_ts.py:103-108 | smoothing non-negative counts gives non-negative values |
| Smoothing.ExampleSmoothing | fb_to_ts.py:103-108 | [1, 2, 3, 4, 5] smoothed over 3 gives 1, 1.5, 2, 3, 4 |
| Bounds.ConvoBounds | fb_to_ts.py:119-127 | both bounds are None exactly when there are no threads; otherwise start is the least first-message time and end the greatest last-message time (each attained by some thread), and start ≤ end when every thread is sorted |
| Loader.ThreadParticipants | fb_to_ts.py:73-77 | the participant set is exactly the set of authors of the messages |
| Loader.ReverseKeepsAuthors | fb_to_ts.py:59-60 | reversing a conversation to oldest-first order does not change its authors |
| Loader.CounterpartUnique | fb_to_ts.py:64-65 | in a two-party conversation the author popped after removing the owner is the only other author |
| Loader.AuthorsAtMostMessages | fb_to_ts.py:73-77 | there are never more distinct authors than messages |
| Loader.TwoPartyHasMessages | fb_to_ts.py:62-63 | a kept conversation has at least two messages, so its first and last message exist |
| Loader.OtherParticipant | fb_to_ts.py:60-65 | a conversation passes the filter exactly when it has two distinct authors one of whom is the owner, and then yields the other author |
| Loader.KeptConvos | fb_to_ts.py:59-63 | what the filter keeps: at most one per conversation, each two-party |
| Loader.KeptConvosFromInput | fb_to_ts.py:54-59 | every kept conversation is an input conversation, reversed |
| Loader.KeptConvosPrefix | fb_to_ts.py:54-69 | examining more conversations only appends to what is kept |
| Loader.LoadThreads | fb_to_ts.py:54-70 | the loader fails exactly when anonymising and the pool has fewer names than kept conversations; otherwise thread k is kept conversation k, named after its other author or after pool name k (the counter moves only for kept threads) |
| Initials.Split | fb_to_ts.py:156 | splitting on single spaces yields at least one piece and no piece holds a space |
| Initials.JoinSplit | fb_to_ts.py:156 | joining the pieces with single spaces gives the name back |
| Initials.SplitJoin | fb_to_ts.py:156 | splitting space-free words joined by single spaces gives the words back |
| Initials.NoEmptyWordIffWellSpaced | fb_to_ts.py:156 | every piece is non-empty exactly when the name is non-empty, has no space at either end and no two spaces in a row |
| Initials.LastPiece | fb_to_ts.py:157 | the last piece is what follows the last space |
| Initials.InitialsLink | fb_to_ts.py:155-159 | a link exists exactly for well-spaced names, and then it is the prefix followed by the upper-cased first character and first character after the last space |
| Initials.OneWordRepeatsInitial | fb_to_ts.py:157-158 | a one-word name repeats its initial: "alice" gives "AA" |
| Report.ScoreThreads | fb_to_ts.py:133-136 | one score per thread, in order, named after the thread, whose counts are that thread's per-window counts on the shared layout |
| Report.ComputeThreadScores | fb_to_ts.py:130-137 | fails only when the name pool runs out; otherwise one score per kept conversation, named by the pool entry or the counterpart; the bounds are absent exactly when nothing was kept, and otherwise are the least first-message time and the greatest last-message time of the kept conversations, each attained; each score's counts are the window counts of its conversation on that layout, every series as long as the layout |
| Report.CutoffTimes | fb_to_ts.py:144-149 | the labels are exactly the cutoffs of the binner's windows, in order, one per window |
| Report.Retained | fb_to_ts.py:163-165 | the scores that get a row: none of them is the placeholder account and each is one of the scores |
| Report.RetainedPrefix | fb_to_ts.py:163-165 | scores seen so far retain a prefix of what all scores retain |
| Report.ZipCells | fb_to_ts.py:167 | zip pairs label c with value c, up to the shorter of the two |
| Report.BuildRow | fb_to_ts.py:166-168 | a row exists exactly when the name has an initials link, and it holds the name, that link and the zipped smoothed counts |
| Report.BuildRows | fb_to_ts.py:163-170 | row k is built from the k-th retained score; no row is the placeholder's; the loop completes exactly when every retained score got a row, and otherwise stops at a name without initials |
| Report.BuildCsv | fb_to_ts.py:140-170 | without bounds nothing is produced; otherwise the labels are the layout's cutoffs, row k is built from retained score k, the report is complete exactly when every retained score has a row and otherwise stops at a name without initials, and for an aligned snapshot every row has one cell per label |

## Left out

- HTML scraping (`fb_to_ts.py:17-40`): BeautifulSoup selectors and
  `strptime` are foreign calls. Parsed messages are an input (a list of
  conversations, newest first, as the parser yields them).
- The message text field: no modelled operation reads it.
- File and directory I/O: listing the inbox, skipping hidden entries,
  reading `random_names.txt` (the pool is an input), pickling, the CSV
  writer and the progress `print`s.
- Names read with `readlines()` keep their trailing newline in the source.
  The pool here is an arbitrary sequence of strings, so this is neither
  excluded nor modelled.
- `strftime` label formatting (`fb_to_ts.py:153`): labels stay integer
  cutoffs. So the model does not capture two labels that format to the same
  day and collapse into one dictionary key.
- Command-line parsing and increment parsing (`fb_to_ts.py:173-195`): this
  is argparse glue and is broken as written (`match.group()` unpacking;
  `timedelta(months=...)`).
- Floating point: `np.mean` is modelled as an exact rational mean.
- An increment of 0 or less: every operation requires `increment > 0`. The
  source's layout loop never ends on a zero increment.
- Smoothing.MovingAverage: the window size is a `nat`. With `n = 0`, Python's
  `xs[-0:]` is the whole list, and that expanding mean is modelled. A
  negative `n` is not modelled.
- Initials.Upper: upper-casing covers ASCII letters only. Python's
  `str.upper` also maps other scripts, and can turn one character into
  several.
- Failures in the source are modelled as absent results: running out of pool
  names (IndexError), an empty word in a name (IndexError), or adding an
  increment to a missing bound (TypeError). Only the first is a `None` from
  the loader. The other two end the row loop or the report with
  `completed == false`. The partially written CSV file is not modelled
  beyond the rows produced before the failure.
- Per-conversation failure isolation and parallel processing: the source
  runs sequentially and does not isolate failures.
