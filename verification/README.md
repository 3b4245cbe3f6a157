# A model of slurm_exporter, with proofs

The exporter runs Slurm commands, parses their text and turns the rows into grouped counters. These Dafny
files model the parsing, grouping, caching and publishing logic and prove what it promises, for every input
and every run. `dafny verify dfyconfig.toml` checks the whole project.

| modules | what they model |
|---|---|
| `TimedCache`, `CacheProtocol` | the shared timed cache: the object with its two critical sections, and every interleaving of its callers |
| `GresTokens`, `GresGrammar`, `Gres` | the GRES language: tokenizer, token expression, counts by type, GPU counts |
| `GpuSnapshot`, `Partitions`, `PartitionTotals` | GPU accounting for the cluster, the table of CPUs, GPUs and jobs by partition, and its job counts summed |
| `Queue`, `QueueMetrics`, `QueueSeries`, `PartitionNames` | job states counted into nested maps, and the series sent with and without the user label |
| `SqueueJobs`, `JobViews` | the shared squeue snapshot, its projections, and the account and user counters |
| `SacctRecords`, `SacctAverages`, `SacctRefresh`, `RefreshProtocol` | job records from sacct, their averages, what a refresh publishes, and every interleaving of refreshes and scrapes |
| `Nodes`, `NodeTable`, `SortedText` | node counts by state and feature set, the table of nodes, and the sort-and-compact that canonicalises their input |
| `ShellQuote`, `FixtureDiff` | the quoting of the capture script and the comparison of fixture shapes |
| `Text`, `Numbers`, `Parsing`, `Sums`, `Permutations`, `Grouping`, `Exposition`, `ReadLock` | Go's string functions and number readers as far as they are used, the lines a parser accepts, sums over sequences and maps, emitted series, the readers of a lock |

How to read it:

- A string is a sequence of code points. Counts are exact integers, sums and averages exact reals.
- A Go map is walked by taking any remaining key, so every result holds for every iteration order.
- `FloatReader` stands for `strconv.ParseFloat`: any function from strings to a number or an error. Results
  hold for every such function; only the two round trips of sacct fields ask it to read digits at their value.
- Commands are oracles that return text or fail. A series is a name, its label values and a value.
- Loop bodies that work on one line, row or key are often methods of their own, named in the table.
- A `Holds` predicate ties the objects of a table to a function of the rows read so far. What that function
  means is proved beside it (`CellsMeaning`, `RecordsMeaning`, `NodeConservation` and so on).

Where the code and its comments part, the model follows the code:

- internal/collector/queue.go:112 says the split keeps a reason that holds pipes. The reason is the fourth of
  five fields, so it is the user field that takes further pipes (`Queue.PipesBelongToUser`), and a reason is read
  in full exactly when it holds no pipe (`Queue.ReasonKeptIffNoPipe`).
- internal/collector/queue.go:495 gives no third label value when the reason is empty, although the descriptor of
  the pending series declares three labels; the aggregated loop gives it. MustNewConstMetric panics on such a
  mismatch; that check is not modelled, and the model sends a series with two label values there. Every pending
  series has its three labels exactly when no pending row has an empty reason (`QueueSeries.PendingLabelsIff`),
  and such a row can come in (`QueueSeries.EmptyReasonIsRead`).
- internal/collector/cache.go:43 returns the stored slice itself, where a hit returns a copy. The runs of
  `CacheProtocol` let callers write to every buffer they were given but the one the cache keeps at the time;
  `MissThenWriteCorrupts` shows why.
- The ttl limits successful fetches only (`CacheProtocol.RefetchAtOnce`).
- internal/collector/partitions.go:119 reads a text that ends in a newline, so the name "" is listed once more
  than the rows list it (`Partitions.ProjectedNames`).
- internal/collector/partitions.go:116 says that running counts cannot exceed the running jobs. They do exactly
  when the known names those jobs list, and one more when the table has the empty name, outnumber the jobs
  (`PartitionTotals.CountsExceedIff`). A partition that a row lists twice counts twice
  (`PartitionTotals.ListedTwiceExceeds`), and a line of sinfo without a name counts one running job for the final
  newline (`PartitionTotals.EmptyNameExceeds`). With one partition to each job, only the second can happen
  (`PartitionTotals.SinglyListedExceedIff`).

## Model

| member | source | states |
|---|---|---|
| CacheProtocol.InvKept | internal/collector/cache.go:24-61 | Every step of every caller keeps the invariant: readers are counted and exclude a writer, the logged fetches are spaced, the cache holds the latest of them, and every result in flight rests on a test that is still right. |
| CacheProtocol.RunKeepsInv | internal/collector/cache.go:24-61 | The invariant holds at the end of every run: any number of callers, any interleaving, any clock that never goes backwards, any mix of failing and succeeding fetches. |
| CacheProtocol.MutualExclusion | internal/collector/cache.go:36-49 | In every run, while one caller tests, copies, fetches or stores under the write lock, no other caller holds either lock, so at most one fetch is in flight. |
| CacheProtocol.FetchesAreSpaced | internal/collector/cache.go:24-50 | In every run two successful fetches are at least ttl apart, by the time they returned as well as by the time they were stamped, and the later one starts at least ttl after the earlier one was stamped. |
| CacheProtocol.WindowBound | internal/collector/cache.go:24-50 | In every run any window of length w holds at most w / ttl + 1 successful fetches. |
| CacheProtocol.ResultsAreLatest | internal/collector/cache.go:24-50 | In every run, callers writing to their copies and to superseded buffers included, every successful call returned the bytes of one successful fetch: on a hit the latest one at the time of the freshness test, less than ttl old; on a miss the one the call made. The result is the buffer that the cache keeps exactly for the latest miss. |
| CacheProtocol.HitsShareNothing | internal/collector/cache.go:27-41 | In every run the buffer of a hit is that of no other call, and not the one the cache keeps. |
| CacheProtocol.AgesAreExact | internal/collector/cache.go:52-61 | A reading of the age is -1 exactly when no fetch had been stored by then, and otherwise the time since the latest one was stored. |
| CacheProtocol.FailedFetchLeavesNoTrace | internal/collector/cache.go:43-46 | After a failed fetch and the release of the lock only the program counter of its caller differs from the state without the lock: data and timestamp are as before. |
| CacheProtocol.SuccessfulFetchIsKept | internal/collector/cache.go:43-49 | A successful fetch becomes the cached data, is stamped with the time of its storing, and is handed out as the very buffer it is kept in; nothing else changes. |
| CacheProtocol.RefetchAtOnce | internal/collector/cache.go:36-46 | So the ttl does not limit failing fetches: with stale data any idle caller can reach its own fetch without the clock moving. |
| CacheProtocol.WritingToSharedBufferCorrupts | internal/collector/cache.go:43-49 | A miss hands out the stored slice itself: if its caller writes to it while the data is fresh, the next hit returns what was written. |
| CacheProtocol.MissHandsOutKept | internal/collector/cache.go:24-50 | With stale data and a free lock a whole call of an idle caller can miss, and leaves that caller idle with the very buffer the cache keeps. |
| CacheProtocol.MissThenWriteCorrupts | internal/collector/cache.go:24-50 | So such a write is within reach: after any run from the start that leaves the lock free and the data stale, a caller can miss, write to the buffer it was given, and make the next hit of any idle caller return what it wrote. |
| TimedCache.TimedCache.Copy | internal/collector/cache.go:28-29 | A new slice with the stored bytes. |
| TimedCache.TimedCache.Lookup | internal/collector/cache.go:26-34 | The fast path finds a copy exactly when the data is fresh, in a slice of its own, and changes nothing. |
| TimedCache.TimedCache.FetchLocked | internal/collector/cache.go:36-49 | The slow path: fresh data is copied and left alone, a failed fetch changes nothing, a successful one is stored and handed out as the same slice. |
| TimedCache.TimedCache.GetOrFetch | internal/collector/cache.go:24-50 | Both paths in a row: without interference the second freshness test never succeeds after the first one failed. |
| TimedCache.TimedCache.Age | internal/collector/cache.go:54-61 | -1 exactly before the first successful fetch, otherwise the time since the data was stored. |
| GresTokens.SplitGresTokens | internal/collector/gpus.go:115-134 | The depth-tracking loop cuts a specification at exactly the commas at depth 0, a stray closing parenthesis not counting below zero. |
| GresTokens.TokensCharacterised | internal/collector/gpus.go:108-134 | The result is the one list of strings that rejoins to the specification, whose elements hold no comma at depth 0, and of which each but the last ends at depth 0. |
| GresTokens.TokenIsWhole | internal/collector/gpus.go:108-134 | Splitting any token of a specification again gives that token alone. |
| GresTokens.SplitsAtCommaIffClosed | internal/collector/gpus.go:115-134 | Splitting a, a comma and b is splitting a and splitting b, if and only if a leaves no parenthesis open. |
| GresGrammar.MatchTokenComplete | internal/collector/gpus.go:97-106 | The recogniser finds every way in which the anchored expression derives a token, so there is at most one. |
| GresGrammar.MatchTokenSound | internal/collector/gpus.go:97-106 | The recogniser accepts no token that the anchored expression does not derive. |
| Gres.AddToken | internal/collector/gpus.go:158-175 | One token adds its count at "type" or "type:model", an absent, empty or "(null)" model leaving the bare type; a malformed token or an out-of-range count adds nothing. |
| Gres.ParseGresByType | internal/collector/gpus.go:153-177 | For every string the result maps each key of a well-formed token to the sum of the counts of its tokens, and has no other key; the placeholders need no special case. |
| Gres.ExactIffNoWrap | internal/collector/gpus.go:174-174 | The sums that 64-bit addition leaves in the map are the exact ones if and only if no exact sum exceeds 64 bits; otherwise each is the exact sum modulo 2^64. |
| Gres.ParseGpuCount | internal/collector/gpus.go:185-193 | The sum of the counts of the tokens whose type is gpu, whatever the order in which the map is walked. |
| Gres.GpuCountAdditive | internal/collector/gpus.go:185-193 | GPU counts add up over a comma when the left part leaves no parenthesis open, malformed tokens included. |
| Gres.OpenParenthesisSwallows | internal/collector/gpus.go:115-134 | That condition is needed: behind an open parenthesis the GPUs that follow are not counted. |
| Gres.GpuNeedsText | internal/collector/gpus.go:37-37 | A specification without the text "gpu:" counts no GPU, so the substring filters in front of the parsers lose nothing. |
| Gres.PrintReadsBack | internal/collector/gpus.go:159-174 | A printed resource is read as its count under its bare type when its model is absent, empty or "(null)", and under "type:model" otherwise, whatever its suffix. |
| Gres.OnePrinted | internal/collector/gpus.go:153-177 | So one printed resource alone gives a map of exactly that one key. |
| Gres.GresRoundTrip | internal/collector/gpus.go:136-177 | For every list of resources, suffixes with commas and "(null)" models included, parsing the comma-joined rendering gives exactly the sums by key. |
| Gres.GpuRoundTrip | internal/collector/gpus.go:136-193 | The GPU count of a printed list is the sum of the counts of its resources of type gpu, whatever their models, and of no other type. |
| GpuSnapshot.BaseGpuState | internal/collector/gpus.go:235-246 | The longest prefix of the lower-cased state that consists of the letters a to z. |
| GpuSnapshot.IsAvailableGpuState | internal/collector/gpus.go:229-252 | True exactly for the base states idle, allocated and mixed. |
| GpuSnapshot.AvailableIff | internal/collector/gpus.go:229-252 | In any case of letters a state is available if and only if it starts with "idle", "allocated" or "mixed" and no letter a to z follows that word. |
| GpuSnapshot.FlagsDoNotMatter | internal/collector/gpus.go:235-252 | Whatever flag suffix follows a state, its base state and its availability are those of the state alone. |
| GpuSnapshot.SplitGpuViews | internal/collector/gpus.go:267-283 | The three texts hold one line per well-formed row, or per available row, in order, with the columns of their parser. |
| GpuSnapshot.ParseTwoColumns | internal/collector/gpus.go:200-220 | ParseTotalGPUs: the sum over the lines of nodes times GPUs, lines without "gpu:" or with fewer than two fields counting nothing. |
| GpuSnapshot.ParseTwoColumnLine | internal/collector/gpus.go:32-50 | The loop body that ParseAllocatedGPUs shares with ParseTotalGPUs. |
| GpuSnapshot.ParseIdleGpus | internal/collector/gpus.go:57-90 | The sum over the lines of nodes times the difference of the two GPU columns, the second one counting 0 when it is missing. |
| GpuSnapshot.IdleWithoutUsed | internal/collector/gpus.go:75-77 | Of a line without a used column all configured GPUs are idle. |
| GpuSnapshot.UnreadableNodesCountNothing | internal/collector/gpus.go:43-50 | A node count that is no number counts as zero. |
| GpuSnapshot.TotalViewMeaning | internal/collector/gpus.go:276-276 | Parsing the total view gives the configured GPUs of all rows: nothing is lost on the way through text, the line filter included. |
| GpuSnapshot.AllocViewMeaning | internal/collector/gpus.go:278-278 | Parsing the alloc view gives the used GPUs of its rows. |
| GpuSnapshot.IdleViewMeaning | internal/collector/gpus.go:279-279 | Parsing the idle view gives the configured minus the used GPUs of its rows. |
| GpuSnapshot.ComputeGpusFromSnapshot | internal/collector/gpus.go:293-305 | For every snapshot alloc and idle make up the configured GPUs of the available rows, other is the configured GPUs of all remaining rows, and utilization is alloc over total or 0. |
| GpuSnapshot.SnapshotReadsBack | internal/collector/gpus.go:269-275 | Rows printed as nodes, state, configured and used GPUs are read back column by column, all of them and in order. |
| GpuSnapshot.PrintedRowAccounts | internal/collector/gpus.go:293-305 | A printed row of an idle, allocated or mixed state gives nodes times used GPUs to alloc and the rest to idle; one of any other state gives nodes times configured GPUs to other. |
| GpuSnapshot.GpuBounds | internal/collector/gpus.go:285-292 | With node counts that are not negative other is not negative; if moreover no row uses more GPUs than it has, idle is not negative, alloc is at most total and utilization lies between 0 and 1. |
| SacctRecords.DurationRoundTrip | internal/collector/sacct_efficiency.go:37-64 | Every duration printed as [D-]HH:MM:SS is read back to the second. |
| SacctRecords.ShortDurationsReadBack | internal/collector/sacct_efficiency.go:54-60 | Minutes and seconds alone, and seconds alone, are read as such. |
| SacctRecords.PlaceholdersAreNoValue | internal/collector/sacct_efficiency.go:39-76 | Empty, zero and "16?" memory fields carry no value, and empty and zero durations are 0, for every reader. |
| SacctRecords.MemoryReadsBack | internal/collector/sacct_efficiency.go:66-101 | Every number printed with a unit and an n or c is read back in megabytes; only the bare zero means no data. |
| SacctRecords.AddLine | internal/collector/sacct_efficiency.go:150-181 | One line updates its job in place so that it stands for the lines read so far: the peak MaxRSS, and the identity of the last valid allocation line. |
| SacctRecords.ParseSacctEfficiency | internal/collector/sacct_efficiency.go:115-195 | For every input the one-pass parser returns the records that the declarative reading of its lines calls for. |
| SacctRecords.AllocationLineReadsBack | internal/collector/sacct_efficiency.go:127-182 | A printed allocation line is read column by column: ID, user, account, CPUs, elapsed, total CPU and CPU time, MaxRSS and requested memory; without CPUs or without a duration it gives no identity. |
| SacctRecords.StepLineReadsBack | internal/collector/sacct_efficiency.go:127-159 | A printed step line gives its MaxRSS to the job before the first dot of its ID, and nothing else. |
| SacctRecords.TextReadsBack | internal/collector/sacct_efficiency.go:127-182 | Any printed mix of such lines is read line by line, in order and in full. |
| SacctRecords.JobReadsBack | internal/collector/sacct_efficiency.go:115-195 | A printed allocation line and step line of one job give one record, with the columns of the one and the MaxRSS of the other. |
| SacctRecords.RecordsMeaning | internal/collector/sacct_efficiency.go:184-194 | Exactly the jobs with a valid allocation line have a record, one each, in the order of the lines on which their IDs first appear. |
| SacctRecords.FirstSeenMeaning | internal/collector/sacct_efficiency.go:143-148 | The order list names each base ID that occurs once, and no other. |
| SacctRecords.FirstSeenInOrder | internal/collector/sacct_efficiency.go:143-148 | Of two base IDs in the order list the earlier one appears first on an earlier line. |
| SacctRecords.LastAllocMeaning | internal/collector/sacct_efficiency.go:160-181 | The identity of a job stands on one of its valid allocation lines, and no later line of the job is one. |
| SacctRecords.PeakRssIsPeak | internal/collector/sacct_efficiency.go:150-154 | MaxRSS is the greatest value on any line of the job, step or not, and is missing exactly when no line has one. |
| SacctRecords.StepLinesMoveFreely | internal/collector/sacct_efficiency.go:116-117 | Moving step lines anywhere, as long as the allocation lines keep their order, leaves the multiset of records unchanged. |
| SacctRecords.StepTextMovesFreely | internal/collector/sacct_efficiency.go:115-195 | The same for two sacct outputs. |
| SacctAverages.Aggregates.Add | internal/collector/sacct_efficiency.go:222-235 | A record added in place turns the sums of a group into those of the group with the record. |
| SacctAverages.Aggregates.Divide | internal/collector/sacct_efficiency.go:242-247 | The division in place, each sum by its own job count, and only when that is positive. |
| SacctAverages.SumUp | internal/collector/sacct_efficiency.go:210-236 | The first phase: one object per account and user with records, none shared, each holding the sums of its group. |
| SacctAverages.DivideAccount | internal/collector/sacct_efficiency.go:240-249 | The users of one account are divided once each, in any order; the aggregates of other accounts stay as they are. |
| SacctAverages.AggregateSacctEfficiency | internal/collector/sacct_efficiency.go:208-251 | Every group with a record has an object of its own, divided exactly once, in whatever order the maps are walked, the jobCount fields of the table sum to the number of records, and every object holds the averages of its group as `FieldsAreAverages` states them. |
| SacctAverages.FieldsAreAverages | internal/collector/sacct_efficiency.go:222-249 | The fields of an aggregate, in those of its records: the CPU percentage times its job count is 100 times the sum of totalCpu / cpuTime over the jobs with CPU time, the memory percentage likewise of maxRss / reqMem over the jobs that have both, and the hours times 3600 are the sum of cpuTime. |
| SacctAverages.CpuAverageIsAverage | internal/collector/sacct_efficiency.go:225-249 | The CPU average times its job count is the sum of the ratios of the jobs that have CPU time, and lies within any bounds of those ratios; with no such job it is 0. |
| SacctAverages.MemAverageIsAverage | internal/collector/sacct_efficiency.go:229-249 | The same for memory, over the jobs that requested memory and have a MaxRSS. |
| SacctAverages.NoMaxRssNoEffect | internal/collector/sacct_efficiency.go:229-235 | A job without a MaxRSS moves neither the memory average nor its job count. |
| SacctAverages.AggregatesIgnoreOrder | internal/collector/sacct_efficiency.go:208-251 | Permuting the records changes no aggregate and no set of groups. |
| SacctAverages.FieldsAreJobCounts | internal/collector/sacct_efficiency.go:222-222 | The jobCount fields of the returned table are the sizes of the groups. |
| SacctAverages.JobCountsAddUp | internal/collector/sacct_efficiency.go:222-222 | The sizes of the groups sum to the number of records. |
| SacctRefresh.ComputeMetrics | internal/collector/sacct_efficiency.go:366-386 | Parsing, aggregating and rendering give, in some order of the maps, the series of the averages of the records in the command output. |
| SacctRefresh.RendersMeaning | internal/collector/sacct_efficiency.go:369-386 | Such metrics hold exactly the series their averages call for: the memory series only where some job had a MaxRSS. |
| SacctRefresh.MetricsTell | internal/collector/sacct_efficiency.go:366-386 | Each published series carries the quantity of its own name for the records of its account and user: the two percentages, the number of jobs, the CPU hours. |
| SacctRefresh.MetricsCover | internal/collector/sacct_efficiency.go:366-386 | Each account and user with records has the CPU, count and hours series, and the memory series exactly when a job has requested memory and a MaxRSS. |
| RefreshProtocol.RunKeepsInv | internal/collector/sacct_efficiency.go:318-416 | In every interleaving of the refresh goroutine, cancellation and any number of scrapes the cached metrics and the timestamp belong together whenever the lock is not held for writing. |
| RefreshProtocol.PublishedPair | internal/collector/sacct_efficiency.go:388-391 | Whoever can take the read lock sees the metrics and the timestamp of the latest successful refresh, or nothing before the first. |
| RefreshProtocol.ScrapesSeeOneRefresh | internal/collector/sacct_efficiency.go:342-416 | In every run a Collect sends nothing before the first successful refresh, and afterwards the metrics and the timestamp in whole seconds of one refresh, the latest one while it holds the lock; and those metrics are the rendered averages of that refresh. |
| RefreshProtocol.DoneAfterAttempt | internal/collector/sacct_efficiency.go:318-333 | done is closed only after at least one refresh was attempted. |
| RefreshProtocol.DoneIsFinal | internal/collector/sacct_efficiency.go:318-340 | Once done is closed, no continuation of the run changes the published pair. |
| PartitionNames.SqueuePartitions | internal/collector/partitions.go:105-111 | The slice rewritten in place holds every comma-separated name without padding and trailing markers, in order, repetitions kept. |
| PartitionNames.NamesReadBack | internal/collector/partitions.go:97-111 | A printed partition list is read back as its names, whatever the white space around each and wherever the default marker stands. |
| Queue.PipesBelongToUser | internal/collector/queue.go:112-127 | When the first four fields hold no pipe, all five are read as they stand, and further pipes belong to the user. |
| Queue.ReasonKeptIffNoPipe | internal/collector/queue.go:112-127 | Whatever the reason and the user hold, the reason is read up to its first pipe and the rest of it goes to the user; so a reason is kept if and only if it holds no pipe. |
| Queue.NVal.Incr | internal/collector/queue.go:55-63 | One count is added at one (user, partition) and nowhere else, making the nested map when it is missing. |
| Queue.NNVal.Incr2 | internal/collector/queue.go:65-77 | The same one level deeper, by reason. |
| QueueMetrics.QueueMetrics.AddN | internal/collector/queue.go:132-139 | A row counts at each of its partitions, as 1 and as its cores, and once in the totals of its state. |
| QueueMetrics.QueueMetrics.AddNN | internal/collector/queue.go:140-147 | The same for a pending row, by reason. |
| QueueMetrics.QueueMetrics.AddRow | internal/collector/queue.go:149-172 | A row changes the two maps of its own state and the totals, and no map of another state; an unknown state changes nothing. |
| QueueMetrics.ParseQueueMetrics | internal/collector/queue.go:83-176 | For every input each of the twenty-two maps holds exactly the rows of its state, and the totals count each row of a known state once. |
| Queue.KnownStateIff | internal/collector/queue.go:149-172 | The states that are counted are the eleven words PENDING, RUNNING, SUSPENDED, CANCELLED, COMPLETING, COMPLETED, CONFIGURING, FAILED, TIMEOUT, PREEMPTED and NODE_FAIL, and no other. |
| QueueMetrics.StatesAreSpelled | internal/collector/queue.go:152-171 | The word each pair of maps stands for. |
| QueueMetrics.PrintedRowReadsBack | internal/collector/queue.go:113-126 | A printed row is read column by column, its cores as printed up to 2^63 - 1. |
| QueueMetrics.PrintedRowCounts | internal/collector/queue.go:113-172 | One printed row makes one cell of 1 and one of its cores in the two maps of its state, and leaves every other map empty. |
| QueueMetrics.PrintedRowTotals | internal/collector/queue.go:137-172 | It makes a job total of 1 and a core total of its cores under its state, when that is one of the eleven words, and under no other. |
| Numbers.AtoiReadsBack | internal/collector/queue.go:124-125 | A printed number is read at its value up to 2^63 - 1, and as that bound beyond. |
| Numbers.AtoiReadsNegative | internal/collector/queue.go:124-125 | The same behind a minus sign, down to -2^63. |
| Numbers.ParseUintReadsBack | internal/collector/gpus.go:159-166 | A printed count is read at its value below 2^64 and refused from there on. |
| Queue.CellsMeaning | internal/collector/queue.go:129-139 | At (user, partition) a map holds the sum over the rows of the user of the partition's multiplicity times the row's weight, and it has a cell exactly where some row lists the partition. |
| Queue.ReasonCellsMeaning | internal/collector/queue.go:140-147 | The pending map at one reason is the map of the rows with that reason, and it has no other reasons. |
| Queue.NestedSumOfRows | internal/collector/queue.go:129-139 | Summing all cells counts every row once per partition it lists. |
| Queue.NestedSumAgainstTotal | internal/collector/queue.go:129-139 | The sum of the cells is at least the job total of the state, with equality if and only if no row lists several partitions. |
| QueueSeries.PendingSumAgainstTotal | internal/collector/queue.go:140-147 | The same for the pending maps. |
| Queue.RowsListPartitions | internal/collector/queue.go:122-122 | Every parsed row lists at least one partition. |
| QueueSeries.PushMetric | internal/collector/queue.go:495-505 | Exactly one series per (user, partition), in some order of the maps, with the third label unless it is empty. |
| QueueSeries.PushPending | internal/collector/queue.go:357-372 | The loops over the reasons: exactly one series per reason, user and partition, in some order of the three maps. |
| QueueSeries.ReasonLabelIffNotEmpty | internal/collector/queue.go:495-505 | A pending series carries the three labels of its descriptor if and only if its reason is not empty. |
| QueueSeries.PendingLabelsIff | internal/collector/queue.go:357-359 | For every queue text all pending series carry their three labels if and only if no pending row has an empty reason. |
| QueueSeries.EmptyReasonIsRead | internal/collector/queue.go:113-127 | Such a row can come in: a pending line with nothing between its third and fourth pipe is one, whatever its partition, cores and user. |
| QueueSeries.Aggregate | internal/collector/queue.go:436-441 | The aggregation holds for each partition the sum over users, whatever the order in which the maps are walked. |
| QueueSeries.PushAggregatedNVal | internal/collector/queue.go:435-449 | Exactly one series per partition with the sum over users. |
| QueueSeries.AggregatedLabels | internal/collector/queue.go:433-450 | An aggregated series is labelled with its partition, and with the extra label behind it unless that is empty. |
| QueueSeries.PushAggregatedNNVal | internal/collector/queue.go:452-469 | Exactly one series per reason and partition, the reason label present even when empty. |
| QueueSeries.DroppingUserLosesNothing | internal/collector/queue.go:433-449 | Dropping the user label: a partition has an aggregated series exactly when it has a labelled one, and its value is the sum of the labelled series over users. |
| QueueSeries.DroppingUserKeepsReasons | internal/collector/queue.go:451-469 | The same for the pending series, reason by reason. |
| QueueSeries.SumNVal | internal/collector/queue.go:472-480 | The grand total of all cells, in any order. |
| QueueSeries.SumNNVal | internal/collector/queue.go:483-493 | The grand total over all reasons, in any order. |
| QueueSeries.AggregatedTotal | internal/collector/queue.go:435-480 | What the aggregated loop sends sums to sumNVal. |
| QueueSeries.LabelledTotal | internal/collector/queue.go:472-505 | What PushMetric sends sums to sumNVal too. |
| QueueSeries.LabelledByReasonTotal | internal/collector/queue.go:357-359 | The labelled pending series of all reasons sum to sumNNVal. |
| QueueSeries.AggregatedByReasonTotal | internal/collector/queue.go:452-493 | What the aggregated pending loop sends sums to sumNNVal. |
| SqueueJobs.SqueueJobsFields | internal/collector/squeue_jobs.go:42-54 | The eight fields, trimmed in place, or nothing when the line is not a full row. |
| SqueueJobs.SnapshotIsClean | internal/collector/squeue_jobs.go:42-54 | In every row of every snapshot all fields are trimmed and on one line, and only the last can hold a pipe. |
| SqueueJobs.JobLineReadsBack | internal/collector/squeue_jobs.go:42-54 | A printed line of eight columns is read back column by column, pipes in the last one included. |
| SqueueJobs.ProjectNamedJobView | internal/collector/squeue_jobs.go:71-83 | One six-column line per row, in order, with the account or the user as the second column. |
| SqueueJobs.ProjectPartitionView | internal/collector/squeue_jobs.go:89-103 | One line per row whose state is exactly the given one, in order. |
| SqueueJobs.ProjectedLineReadsBack | internal/collector/squeue_jobs.go:78-80 | A projected line is cut back into its six fields, even when the last one holds pipes. |
| JobViews.ParseJobView | internal/collector/accounts.go:57-85 | ParseAccountsMetrics: one object per group that occurs, none shared, its five counters the sums over the rows of the group. |
| JobViews.JobMetrics.Add | internal/collector/users.go:57-66 | The switch over the state in ParseUsersMetrics, as in ParseAccountsMetrics: at most one state matches, and the CPUs and GPUs of running jobs only are added. |
| JobViews.ProjectionRefines | internal/collector/squeue_jobs.go:56-83 | Parsing the projected text yields exactly what reading the eight-column rows directly yields: no row lost, merged or altered. |
| JobViews.JobMetricsOf | internal/collector/accounts.go:34-85 | Projecting and parsing one snapshot gives the counters of the eight-column rows, by account or by user. |
| JobViews.PrintedJobCounts | internal/collector/accounts.go:34-85 | One printed job gives one object, of its account or of its user: one pending, running or suspended job by what its state starts with in lower case, and its CPUs and GPUs only when it runs. |
| Text.LowerLetters | internal/collector/gpus.go:238-240 | A capital and its small letter are both read as the small one. |
| Text.LowerWords | internal/collector/accounts.go:72-76 | The three state words, as squeue prints them, in lower case. |
| JobViews.FieldsAddUp | internal/collector/accounts.go:64-82 | Each of the five counters, summed over the objects of a table, is its sum over all rows. |
| JobViews.AccountsAndUsersAgree | internal/collector/squeue_jobs.go:26-29 | In the two tables made from one snapshot each of the five counters, summed over the accounts, equals the same counter summed over the users. |
| JobViews.CountsAreGroupSums | internal/collector/accounts.go:73-82 | The five counters of a group are its shares of the five sums over all groups. |
| Partitions.Partitions.ParsePartitionGpus | internal/collector/partitions.go:74-95 | Each partition's counters grow by the configured minus the used, and by the used, GPUs of all well-formed lines about it; new partitions start from zero and only lines with a GPU create them. |
| Partitions.DroppedLineIsZero | internal/collector/partitions.go:76-78 | A line that the substring filter drops would have contributed nothing. |
| Partitions.PartitionGpuConservation | internal/collector/partitions.go:92-93 | Per partition idle and allocated GPUs together grow by exactly the configured ones. |
| Partitions.Partitions.CountJobLine | internal/collector/partitions.go:121-125 | One line counts at every known partition it lists, once per listing, and changes no other partition. |
| Partitions.Partitions.ParsePartitionCpus | internal/collector/partitions.go:46-70 | Each partition has the counters that its CPU lines leave; lines with a comma, and no others, create partitions, from zero and even when they set nothing. |
| Partitions.LastLineSetsCpus | internal/collector/partitions.go:61-68 | The last line of a partition with four states decides all four CPU counters, and no other counter changes. |
| Partitions.Partitions.ParsePartitionJobs | internal/collector/partitions.go:119-134 | For every snapshot the pending and running counts of each known partition grow by how often the rows in exactly that state list it, and no partition is created; the empty name, if it is one, grows by one more for the final newline. |
| Partitions.ProjectedNames | internal/collector/partitions.go:119-134 | The detour through text gives exactly the names that the rows list, in order, and one empty name for the final newline. |
| Partitions.ParsePartitionsMetrics | internal/collector/partitions.go:137-163 | A table exactly when no command fails, its partitions those of the CPU lines and of the GPU lines, each counter given over the three texts. |
| PartitionTotals.CpuLineReadsBack | internal/collector/partitions.go:55-68 | The four numbers of a printed CPU line are allocated, idle, other and total CPUs of the partition without its marker. |
| PartitionTotals.GpuLineReadsBack | internal/collector/partitions.go:79-93 | The columns of a printed GPU line are nodes, partition, configured and used GPUs. |
| PartitionTotals.PrintedPartition | internal/collector/partitions.go:137-163 | The eight counters of one partition with one job, from three printed lines. |
| PartitionTotals.CountsAreListings | internal/collector/partitions.go:119-134 | Summed over the table, the counts of a state grow by the number of known names that its jobs list, and by one more when the empty name is known. |
| PartitionTotals.CountsExceedIff | internal/collector/partitions.go:113-163 | So the counts of the table exceed the number of those jobs if and only if that number does. |
| PartitionTotals.SinglyListedExceedIff | internal/collector/partitions.go:113-163 | When every job in a state, as a running one, lists one partition, the counts exceed their number, and then by one, if and only if the table has the empty name and the partition of each of them. |
| PartitionTotals.EmptyNameIff | internal/collector/partitions.go:57-86 | The table has the empty name if and only if the name on some line of sinfo is empty but for default markers. |
| PartitionTotals.CountsCoverJobs | internal/collector/partitions.go:113-163 | When every job in a state lists a known partition, the counts of the table sum to at least the number of such jobs. |
| PartitionTotals.ListedTwiceExceeds | internal/collector/partitions.go:113-118 | One running job that lists its partition twice makes the running counts sum to two. |
| PartitionTotals.EmptyNameExceeds | internal/collector/partitions.go:113-163 | A line of sinfo without a name makes them sum to one before there is any job. |
| Nodes.NormalizeIdempotent | internal/collector/nodes.go:100-110 | Normalising a feature set twice is normalising it once, the "(null)" sentinel included. |
| Nodes.NormalizeBlindToOrder | internal/collector/nodes.go:100-110 | The same features in any order have one normal form. |
| Nodes.LineReadsBack | internal/collector/nodes.go:131-139 | A printed line of four fields, or of more, is read as its partition without marker, its count, state and normal feature set; the further fields are ignored. |
| Nodes.SingleFeature | internal/collector/nodes.go:100-110 | A single feature stays as it is, but for "(null)", which loses its parentheses. |
| Nodes.PrintedLineIsOneEntry | internal/collector/nodes.go:123-146 | A text of one printed line is one entry with the columns of that line. |
| Nodes.OneEntryCounts | internal/collector/nodes.go:16-98 | One entry counts in the field whose name its state starts with, in "other" when there is none, and nowhere else. |
| Nodes.BucketIffStem | internal/collector/nodes.go:16-98 | A state is counted in one of the twelve named buckets if and only if it starts like it, so the order of the switch does not matter. |
| Nodes.NodesMetrics.AddNodeStateCount | internal/collector/nodes.go:69-98 | The count is added at the feature set in the map of the state's bucket, and the other twelve maps stay as they are. |
| Nodes.ParseNodesMetricsGlobal | internal/collector/nodes.go:123-146 | One object per partition that occurs, none shared, its thirteen maps the sums by feature set over the distinct lines of its bucket. |
| Nodes.EntriesDependOnLineSet | internal/collector/nodes.go:125-127 | Permuting or repeating input lines changes no entry, hence no map. |
| Nodes.NodeConservation | internal/collector/nodes.go:123-146 | Per partition the thirteen buckets over all feature sets sum to the counts of its distinct well-formed lines. |
| Nodes.NodesMetrics.ZeroFill | internal/collector/nodes.go:281-301 | After the zero-fill all thirteen maps have the same keys, every feature set of any of them, and no value has changed. |
| Nodes.FilledKeepsSum | internal/collector/nodes.go:294-301 | The zero-fill changes no sum. |
| Sums.SumValues | internal/collector/nodes.go:257-263 | sumMap: the sum of a map's values, whatever the order in which it is walked. |
| Nodes.SendFeatureSetMetric | internal/collector/nodes.go:265-269 | Exactly one series per feature set, in some order. |
| Nodes.FeatureSetsAddUp | internal/collector/nodes.go:303-332 | The series per feature set of a filled map add up to the one series sent without that label. |
| SortedText.UniqMeaning | internal/collector/node.go:44-46 | Sorting and compacting give the strictly increasing list of exactly the input lines. |
| SortedText.LeIsLexicographic | internal/collector/node.go:44-46 | The order is lexicographic: a proper prefix comes first, and otherwise the first character that differs decides. |
| SortedText.UniqDependsOnSet | internal/collector/node.go:44-46 | Sorting and compacting depend on the set of lines only. |
| NodeTable.AppendUnique | internal/collector/node.go:206-211 | The value is appended unless it is already there. |
| NodeTable.NodeMetrics.Update | internal/collector/node.go:74-89 | A complete line overwrites the readings, the GRES columns only when both are there, and adds its partition. |
| NodeTable.ParseNodeMetrics | internal/collector/node.go:40-93 | One object per node with a usable line, none shared: the status of its first line, the readings of its last complete one, the GRES of its last complete one with both columns. |
| NodeTable.RecordMeaning | internal/collector/node.go:53-89 | A node has the status on its first line, the readings of its last complete line, and the GRES of its last complete line with both columns. |
| NodeTable.PrintedNode | internal/collector/node.go:40-93 | One printed line with or without GRES columns gives one node with those columns in its fields, and its partition without the marker. |
| NodeTable.NodesDependOnLineSet | internal/collector/node.go:44-46 | The lines of a node, hence its record, depend on the set of input lines only. |
| NodeTable.NodePartitions | internal/collector/node.go:53-89 | A node's partition list has no repetition and names exactly the stripped partitions of its complete lines. |
| ShellQuote.QuotingRoundTrip | tools/fixture-capture/main.go:65-115 | For every list of strings the shell reads the space-joined shown arguments back as exactly that list, empty strings, quotes and newlines included, and the placeholders as their expressions. |
| ShellQuote.Step | tools/fixture-capture/main.go:98-117 | The shown arguments, placeholders as their shell expression and the rest quoted, joined by spaces. |
| ShellQuote.EmitSteps | tools/fixture-capture/main.go:277-287 | The steps that always run, or the expensive ones indented, each as one line with its trailing spaces trimmed, in order. |
| ShellQuote.EveryStepOnce | tools/fixture-capture/main.go:276-287 | Every step is emitted by exactly one of the two loops, the expensive ones behind the if. |
| ShellQuote.TrimKeepsArguments | tools/fixture-capture/main.go:277-279 | The trim never removes a character of a non-empty argument list. |
| ShellQuote.TrimWithoutArguments | tools/fixture-capture/main.go:277-279 | Without arguments the trim removes exactly the separating space. |
| ShellQuote.LineReadsBack | tools/fixture-capture/main.go:277-287 | The shell reads an emitted line as run_step, the name, the binary and exactly the arguments, with or without placeholders. |
| ShellQuote.RegistryExpressionsAreClosed | internal/collector/command_registry.go:511-521 | The expressions of the placeholders in the registry are ones that double quotes keep together. |
| FixtureDiff.Shape | tools/fixture-diff/main.go:52-91 | The loop over three flags writes one mark for every maximal run of digits, letters or blanks and every other character as it is. |
| FixtureDiff.ShapeSpelled | tools/fixture-diff/main.go:48-91 | A run of letters and underscores becomes W, one of digits #, one of spaces and tabs a space, and any other character stays. |
| FixtureDiff.ShapeIdempotent | tools/fixture-diff/main.go:48-91 | The shape of a shape is that shape. |
| FixtureDiff.RunLengthDoesNotMatter | tools/fixture-diff/main.go:48-91 | Replacing a run of digits, letters or blanks by another non-empty run of its kind leaves the shape unchanged. |
| FixtureDiff.ShapesOf | tools/fixture-diff/main.go:93-113 | The distinct shapes of the lines that are not blank, in strictly increasing order. |
| FixtureDiff.ShapeSetMeaning | tools/fixture-diff/main.go:93-113 | Exactly the lines that are not blank give a shape, and no shape is empty. |
| FixtureDiff.Missing | tools/fixture-diff/main.go:206-218 | The elements of the first list that the second lacks, in order; none exactly when the second has them all. |
| FixtureDiff.MissingIsDifference | tools/fixture-diff/main.go:206-218 | For sorted lists without repetition the result is the sorted list of the set difference. |
| FixtureDiff.CompareFile | tools/fixture-diff/main.go:172-195 | Two files are reported as the same exactly when their shape sets are equal, and otherwise with exactly the shapes gone and the shapes new. |
| FixtureDiff.Compare | tools/fixture-diff/main.go:127-204 | One finding per file name, in order, and no difference if and only if the two sides have the same names and equal shape sets; an error exactly when there is nothing to compare or a common file cannot be read. |
| FixtureDiff.VerdictSymmetric | tools/fixture-diff/main.go:127-204 | Verdict and error do not depend on which directory is called the old one. |
| Text.JoinSplit | internal/collector/squeue_jobs.go:73-79 | Joining the parts of a split string by its separator gives the string back. |
| Text.SplitNJoin | internal/collector/squeue_jobs.go:46-46 | Splitting into n parts undoes the joining of n fields of which only the last may hold the separator. |
| Text.SplitUnlines | internal/collector/squeue_jobs.go:71-83 | Text emitted line by line is read back as those lines and one empty line. |
| Text.FieldsOfJoin | internal/collector/gpus.go:276-279 | Words joined by spaces are the fields of the joined line. |

## Left out

- GpuBounds: states the bounds under the facts that its comment takes for granted about Slurm, that node counts are not negative and that no node uses more GPUs than it has.
- GresRoundTrip: resources whose count exceeds 64 bits are not printed; the parser skips such tokens, which `AddToken` states.
- ParseGresByType: does not tell a nil map from an empty one, and adds counts exactly; `ExactIffNoWrap` says when 64-bit addition gives the same.
- ResultsAreLatest: speaks of runs in which no caller writes to the buffer that the cache keeps at the time; it fails in others, as `MissThenWriteCorrupts` shows.
- PushMetric: with an empty reason the source gives MustNewConstMetric too few label values for the descriptor of the pending series, which panics; label counts of descriptors are not modelled.
- PushAggregatedNVal: models one metric at a time; the list of metrics in internal/collector/queue.go:345-412 is a fixed table.
- ParseQueueMetrics: keeps the twenty maps that have no reason in one table of pairs, in the order of the constant STATES, instead of twenty named fields.
- ParseJobView: stands for both ParseAccountsMetrics and ParseUsersMetrics, which are one loop over the same columns; the expression that finds GPUs in the tres column is an arbitrary function applied alike to both.
- ParseTwoColumns: stands for both ParseTotalGPUs and ParseAllocatedGPUs, which are one loop.
- Compare: returns findings instead of the text of the report, and takes the directories as maps from file names to contents.
- EmitSteps: models the run_step lines; the fixed text of the script around them is not part of this model.
- QuotingRoundTrip: the lexer knows blanks, backslashes, single quotes and words that are one text in double quotes with command substitutions in it; anything else a shell would act on makes it give up. What a substitution expands to is not modelled.
- Floating point: rounding, infinities and NaN, and range errors of ParseFloat.
- Invalid UTF-8, and lower-casing beyond what can yield an ASCII letter.
- The regexp engine: the token expression is a recogniser with its language beside it, the anchored state expressions are prefix tests.
- The preference of a read/write lock for waiting writers: the runs here include more interleavings than it allows.
- The collectors for cpus, licenses, fairshare, drained nodes, reservations, scheduler and status, which copy the fields of each line into series: none of them is modelled.
- Running commands, HTTP, flags, registration, descriptors, channels, logging, and the fixed table in internal/collector/metric_surface.go.
- Clocks and timestamp formats, except that time never goes backwards; one refresh is one step of the command oracle.
