# ETL orchestration and weblog pipeline, modelled in Dafny

This project models three pieces of the ETL repository:

- **The job orchestrator** (`etl_job_run.py`). A fresh run walks the active jobs of the
  `etl_jobs_logging` registry in the order the query returns them. For each job it inserts a
  `Running` row into `etl_jobs_execution_logging`, runs the job's command and applies the final
  update. A restart finds the latest `Failed` row and walks the active jobs whose id is at least
  that row's job id. The failed job reuses its run id and its row is marked `Restarted`; every
  other job gets a new row.
- **The weblog generator** (`create_weblogs.py`). It writes lines in the Apache HTTP Server
  Combined Log Format `%h %l %u %t "%r" %>s %b "%{Referer}i" "%{User-agent}i"`.
- **The weblog transformation** (`transform_logs_load.py`, `transform_weblogs`). It reads each
  line into ten columns and re-joins the timestamp. It rewrites the offset as `UTC +HH:MM` (or
  `UTC`), looks up a country by that text, cuts a client device out of the user agent, and keeps
  six columns.

## How the pieces are modelled

- The execution log is a sequence of `Run` rows. Each SQL `UPDATE ... WHERE job_id AND
  job_run_id` is a keyed replacement of rows (`ExecutionLog.UpdateWhere`).
- `os.system` is an oracle from job to the integer it returns (`Orchestrator.ExitOracle`).
- Run ids are natural numbers. A fresh id is one more than the largest id in the log, which
  stands in for `uuid1`/`uuid4`.
- `datetime.now()` is a counter that advances on every call, in the order the source evaluates
  those calls.
- A generator iteration's random choices form a `WeblogFormat.Draw`: the indices
  `random.choice` picks, the clock fields, the `randint` address and the chosen zone's UTC
  offset in minutes.
- `pd.read_csv(sep=" ", header=None)` is modelled by its tokenizer (`WeblogParse.Step`), applied
  to each line on its own. The tokenizer splits on single spaces outside double quotes, and a
  doubled quote inside a quoted field stands for one quote. A quote left open at the end of a
  line closes there; pandas would instead carry the field on into the next line (see "## Left
  out").
- The country mapping after `groupby(...).sample(1)` is a parameter. `SampledFrom` constrains
  it: one row per offset, every row taken from the full mapping, every offset kept.

The model follows the code as written, also where it departs from what the job set-up evidently intends:

- Only the return values 0 and 1 are classified. Any other value leaves the row `Running`, and
  the loop goes on (etl_job_run.py:59-66).
- Neither job query has an `ORDER BY`, so jobs run in the order the registry returns them. The
  model keeps registry order and does not sort by `job_id`.
- The failed job's reused row does not stay `Restarted`. Lines 117-124 run for every job, so
  that row then gets the same `Succeeded`/`Failed` update as any other. `RestartReusedRow`
  states this.
- The `[default:new]` text in the option help lacks the space docopt's default pattern needs.
  So a missing `--run_type` arrives as `None`, which means a fresh run. An explicit `new`
  matches neither branch of `main` and does nothing.

## Model

| member | source | states |
|---|---|---|
| ExecutionLog.UpdateWhere | etl_job_run.py:59-66 | An UPDATE keyed by job id and run id changes exactly the rows with that key. Every other row stays, and the log keeps its length. |
| ExecutionLog.Apply | etl_job_run.py:108-124 | Every SET writes its status and `last_updated_time` and leaves the key and start time alone. `Failed` keeps the end time and stores the message. `Succeeded` and `Restarted` write the given end time; `Restarted` also clears the error. |
| ExecutionLog.FreshId | etl_job_run.py:51 | A new run id differs from, in fact exceeds, every run id already in the log. |
| ExecutionLog.LatestFailed | etl_job_run.py:81-93 | Finds nothing exactly when no row is `Failed`. Otherwise it picks a `Failed` row whose last update is not earlier than that of any other `Failed` row. |
| ExecutionLog.LatestFailedUnique | etl_job_run.py:81-91 | A `Failed` row updated strictly after every other `Failed` row is the one the query returns, whatever the times of rows in other states. |
| Seqs.WhereAppend | etl_job_run.py:44-46 | Filtering distributes over concatenation, so the filtered jobs keep the registry's order. |
| Seqs.WhereCount | etl_job_run.py:44-46 | Filtering keeps each selected row as many times as the table holds it, and no other row. |
| Orchestrator.ActiveJobs | etl_job_run.py:44-48 | The jobs walked are exactly the registry rows whose flag is `Y`, in registry order (a subsequence of the registry). A row the registry holds twice is walked twice. |
| Orchestrator.JobsFrom | etl_job_run.py:95-97 | A restart walks exactly the active registry rows whose job id is at least the failed job's id, in registry order, each as many times as the registry holds it. |
| Orchestrator.Finish | etl_job_run.py:59-66 | The loop breaks exactly on return value 1. Only rows with the iteration's key change. For 1 they get the `Failed` update with message `query + " failed"` at the current time; for 0 the `Succeeded` update with the current time as end time and the next reading as last update; any other value changes nothing. |
| Orchestrator.FreshJob | etl_job_run.py:50-66 | A fresh iteration adds exactly one row, halts exactly on 1 and advances the clock. |
| Orchestrator.RestartJob | etl_job_run.py:100-124 | A restart iteration adds no row for the failed job and one row for any other job. It halts exactly on 1 and advances the clock. |
| Orchestrator.NewEtlJobRun | etl_job_run.py:36-70 | A fresh run over the active jobs adds at most one row per active job and never moves the clock back; `FreshLoopShape` states the rows. |
| Orchestrator.FreshLoop | etl_job_run.py:50-66 | A fresh run appends at most one row per job and never shrinks the log. |
| Orchestrator.RestartLoop | etl_job_run.py:100-128 | A restart loop adds at most one row per job walked and never moves the clock back; `RestartLoopShape` states the rows. |
| Orchestrator.RestartEtlJobs | etl_job_run.py:73-128 | A restart fails, before any job runs, exactly when the log holds no `Failed` row. Otherwise it runs the restart loop from a `Failed` row updated no earlier than any other `Failed` row: over the active jobs from that row's job id on, reusing that row's run id. |
| Orchestrator.RunMain | etl_job_run.py:131-147 | No run type gives a fresh run and `restart` gives a restart. Any other value, `new` included, leaves the state unchanged. |
| OrchestratorProofs.ReachedFirstFailure | etl_job_run.py:59-62 | The loop reaches exactly the jobs up to and including the first one whose command returned 1. |
| OrchestratorProofs.FreshJobShape | etl_job_run.py:50-66 | One fresh iteration leaves the old rows unchanged. It appends a row with the job's id, the current time as start and a run id distinct from every earlier id (larger, under the model's id oracle). The row records the command's outcome. |
| OrchestratorProofs.FreshLoopShape | etl_job_run.py:36-66 | A fresh run leaves the old log as a prefix. It appends one row per reached job, in order, each reporting its outcome under a new run id distinct from every earlier id. |
| FreshRunProofs.FreshRunHalts | etl_job_run.py:59-62 | When job `p` is the first to return 1, the run appends rows for jobs 0 to `p` only, in order. The last is `Failed` with message `query + " failed"` and no end time. |
| FreshRunProofs.LaterJobsNotRun | etl_job_run.py:62 | With distinct job ids, no job after the halting one has a row of this run. |
| FreshRunProofs.FreshRunCompletes | etl_job_run.py:57-66 | When no command returns 1, every job gets exactly one row, in order. A row is `Succeeded` exactly when its command returned 0, and otherwise stays `Running`. |
| FreshRunProofs.NewRunsDisjoint | etl_job_run.py:51 | Two fresh runs in a row never share a run id. |
| FreshRunProofs.FreshLoopClock | etl_job_run.py:52-61 | Recorded times stay behind the clock. A run that halts leaves its failed row as the latest `Failed` row. |
| FreshRunProofs.HaltedRunShape | etl_job_run.py:59-62 | A fresh run halted by job `p` ends with that job's row, and that row is the latest failure. |
| FreshRunProofs.RestartResumesFreshFailure | etl_job_run.py:81-102 | A restart after a halted fresh run resumes from the halting job and reuses that job's run id. |
| RestartProofs.RestartOtherJobShape | etl_job_run.py:103-124 | A restart iteration for a job other than the failed one behaves like a fresh one: a new row with a new run id reporting the outcome. |
| RestartProofs.RestartFailedJobShape | etl_job_run.py:108-124 | The failed job's iteration adds no row and changes only rows of the reused run. Each such row ends `Restarted`, `Succeeded` or `Failed` by the return value, with an end time and the error cleared unless it failed again. |
| RestartProofs.RestartLoopShape | etl_job_run.py:100-124 | A restart keeps every row in place and changes only rows of the reused run. It appends one row per reached job other than the failed one, in order, under never-used run ids. |
| RestartProofs.RestartUntouched | etl_job_run.py:100-124 | If the failed job is not reached, no existing row changes. |
| RestartProofs.RestartReusedRow | etl_job_run.py:108-124 | If the failed job is reached once, its reused row takes that job's final status: `Restarted` for values other than 0 and 1. |
| RestartProofs.RestartFromLatestFailure | etl_job_run.py:81-124 | A restart resumes from the latest `Failed` row and succeeds. It then has the restart shape over the active jobs from that job id on. |
| WeblogFormat.Zone | create_weblogs.py:50 | strftime's `%z` is five characters with no space or quote. |
| WeblogDomains.ZoneReadsBack | create_weblogs.py:50 | `%z` reads back as the offset: the sign, then two-digit hours and minutes below 60 whose total in minutes is the offset's magnitude. |
| WeblogFormat.DatePart | create_weblogs.py:50 | The date part of the timestamp holds no space or quote. |
| WeblogFormat.Dotted | create_weblogs.py:64 | The dotted address holds no space or quote. |
| WeblogFormat.FormatLine | create_weblogs.py:64 | The line starts with the address and ` - ` and ends with the quoted agent; `FormatUnparse` gives the whole layout. |
| WeblogFormat.CreateWeblogs | create_weblogs.py:42-64 | The generator writes `n - 1` lines, or none for `n <= 1`. Line `k` is the Combined Log Format line of iteration `k + 1`'s values. |
| WeblogFormat.WeblogsMain | create_weblogs.py:66-69 | A missing count means 10, hence 9 lines. |
| WeblogDomains.DottedOctets | create_weblogs.py:64 | The address text splits at dots into four decimal octets, each below 256, whose base-256 value is the drawn address. |
| WeblogDomains.MonthsListed | create_weblogs.py:44 | The month list holds exactly the months other than February, increasing. |
| WeblogDomains.GeneratedDateValid | create_weblogs.py:44 | The year is 2019 to 2022, the month is never February and the day is 1 to 30, a real date of that month. |
| WeblogDomains.GeneratedFieldDomains | create_weblogs.py:53-61 | The status reads back as one of the 9 codes, bytes as a value in [2000, 4000) and the user as one in [100, 110). The agent is one of the 8 listed strings. |
| WeblogDomains.GeneratedFieldsPlain | create_weblogs.py:50-64 | The generated fields have the shape the reader needs: plain host, user, status and bytes, a timestamp with exactly one space between plain parts, and an agent with no double quote. |
| WeblogDomains.AgentsUnquoted | create_weblogs.py:32-40 | None of the 8 agent strings holds a double quote. |
| WeblogParse.Tokenize | transform_logs_load.py:28 | Every line yields at least one field; `TokenizeUnparse` states what written fields read back as. |
| WeblogParse.ScanFields | transform_logs_load.py:28 | Readable fields written with single spaces between them are read back as their texts, from any point between fields. |
| WeblogParse.TokenizeUnparse | transform_logs_load.py:28 | The tokenizer inverts writing: it returns the texts of readable fields, with quotes removed. |
| WeblogParse.ParseLine | transform_logs_load.py:28-29 | A line reads into the ten named columns exactly when it has ten tokens, and the columns are those tokens in order. Otherwise the error names the token count. |
| WeblogParse.FormatUnparse | create_weblogs.py:64 | The generator's line is the ten fields written one after another, with request, referer and agent quoted and the bracketed timestamp split at its space. |
| WeblogParse.ReadFormattedLine | transform_logs_load.py:28-36 | A formatted line with plain parts and an unquoted agent reads back into exactly its ten columns. Its two timestamp columns, joined by a space, give back the bracketed timestamp. |
| WeblogTransform.JoinTimestamp | transform_logs_load.py:36 | When neither column holds a space, splitting the joined timestamp at its space gives back the two columns. |
| WeblogTransform.ReformatZone | transform_logs_load.py:37-38 | The rewritten offset starts `UTC `, is 5 to 11 characters long and holds no `]`. |
| WeblogTransform.CollapseZero | transform_logs_load.py:39 | Exactly the two zero texts become `UTC`. Every other text passes through unchanged. |
| WeblogTransform.NormaliseTimezone | transform_logs_load.py:37-39 | The normalised zone holds no `]`. It is `UTC` exactly when the rewritten offset is `UTC +00:00` or `UTC -00:00`, and otherwise it is the rewritten offset. |
| WeblogTransform.ReformatGenerated | transform_logs_load.py:37-38 | A generated `%z` with its bracket is rewritten as `UTC `, sign and hours, colon, minutes. |
| WeblogTransform.NormaliseZone | transform_logs_load.py:37-39 | A generated zone normalises to the offset's independently built name: `UTC` for zero, `UTC ±HH:MM` otherwise. |
| WeblogTransform.NonzeroKept | transform_logs_load.py:39 | A non-zero offset's text is neither zero text, so the zero replacement leaves it alone. |
| WeblogTransform.ZoneNameInjective | transform_logs_load.py:37-39 | Two offsets get the same name exactly when they are equal. |
| WeblogTransform.NormalisedZonesDistinct | transform_logs_load.py:37-39 | Two generated zones normalise to the same text exactly when their offsets are equal. |
| WeblogTransform.ClientDevice | transform_logs_load.py:53-55 | The device is `Unknown` when the agent has no `(`. Otherwise it is the text after the first `(` up to the next `(`, `)` or `;`. |
| WeblogTransform.CutAtStops | transform_logs_load.py:53 | The cuts at `)` and then `;`, applied to the text up to the next `(`, leave the text up to the first of the three. |
| WeblogTransform.WindowsDevice | transform_logs_load.py:53 | The Windows agent's device is `Windows NT 10.0`. |
| WeblogTransform.IPadDevice | transform_logs_load.py:53 | The iPad agent, which has no space before its `(`, gives `iPad`. |
| WeblogTransform.MatchesUnique | transform_logs_load.py:46-49 | With one mapping row per offset, a zone meets at most one row: the row holding it. |
| WeblogTransform.Countries | transform_logs_load.py:49-56 | The left merge pairs a log row with at least one country. It gives `Unknown` alone when no mapping row has the zone. Otherwise each country occurs as many times as the mapping pairs it with the zone, so with unique offsets the log row gets exactly the one country of the row holding its zone. |
| WeblogTransform.Country | transform_logs_load.py:49-56 | With unique offsets the country is the one of the row holding the zone, or `Unknown` when there is none. |
| WeblogTransform.TransformRow | transform_logs_load.py:32-56 | An output row keeps the address and user and carries the given country. Its timestamp is the two columns joined by a space, and splits back into them when neither column holds a space. Its zone is the normalised offset (no `]`, `UTC` or starting `UTC `), and its device is the one cut from the agent (`Unknown` without `(`). |
| WeblogTransform.TransformRows | transform_logs_load.py:32-56 | A left merge never drops a log row. With unique offsets the output has one row per log row, in input order, each holding its log row's six columns and the country of its zone. |
| WeblogTransform.SampledCountry | transform_logs_load.py:46-56 | A zone the full mapping lacks gets `Unknown`. For any other zone, the full mapping pairs the country found in the sample with that zone. |
| WeblogTransform.ReadWeblogs | transform_logs_load.py:28-29 | A file without lines fails with `EmptyFile`. Otherwise the read succeeds exactly when every line has ten tokens; the rows are then the lines' columns, in order, and a failure carries some line's error. |
| WeblogTransform.TransformWeblogs | transform_logs_load.py:24-58 | The transformation succeeds exactly when the file has lines and every line reads into ten columns; a file without lines fails with `EmptyFile`. |
| WeblogPipeline.GeneratedLineRead | transform_logs_load.py:28-29 | A generated line reads back into its address, `-`, user, the two timestamp halves, request, status, bytes, referer and agent. |
| WeblogPipeline.GeneratedRow | transform_logs_load.py:32-56 | A generated line transforms into its draw's expected row. That row holds the address, the user, the bracketed timestamp, the offset's name, the country looked up by that name and the agent's device. |
| WeblogPipeline.GeneratedLogTransforms | transform_logs_load.py:24-58 | A non-empty generated log transforms successfully into one expected row per line, in line order. An empty one, as `number_of_logs` of 1 or less leaves, fails with `EmptyFile`. |
| Text.SplitJoin | transform_logs_load.py:53 | `str.split` returns the separator-free pieces that were joined. |
| Text.SplitSecond | transform_logs_load.py:53 | A split has one piece exactly when the separator is absent. Otherwise the second piece runs from the first separator to the next. |
| Text.RemoveAllAppend | transform_logs_load.py:37 | `str.replace(']', '')` works piecewise over a concatenation. |
| Text.DecimalRoundTrip | create_weblogs.py:53-61 | `str(n)` reads back as `n`. |
| Text.Pad2RoundTrip | create_weblogs.py:50 | A two-digit strftime field reads back as its number. |

## Left out

- Database access is not modelled: connections, cursors, DDL, `to_sql` and the load step. The
  registry and the log are plain sequences, and an UPDATE is a keyed replacement.
- The `except` handlers of etl_job_run.py:68-70 and 126-128 are not modelled. They catch every
  exception, but their first statement adds the exception object to a `str`, which raises
  `TypeError`; so any error inside the `try` would end the whole run unlogged rather than move on
  to the next job. The model has no database and no failing statement inside the `try`, so that
  path never arises in it.
- `os.system` is not modelled. Its return value is an oracle, taken as the raw integer the call
  returns; the POSIX wait-status encoding is not modelled.
- `uuid` is not modelled. Run ids come from an oracle that returns one more than the largest
  id in the log.
- `datetime.now()` is not modelled. A counter advances once per call.
- Randomness is not modelled: `random.choice`, `randint`, the pytz zone list and
  `groupby(...).sample(1)`. The choices are parameters, constrained by `ValidDraw` and
  `SampledFrom`. Each zone is represented only by its UTC offset in minutes.
- docopt, dotenv and the file logging are not modelled. `main`'s argument is an
  `Option<string>` or an `Option<int>`.
- pandas' type inference is not modelled, nor the `NaN` it gives an empty field, nor skipping
  blank lines. Columns are text.
- A file whose lines are all blank is not modelled; pandas rejects it as it rejects a file
  without lines.
- Lines with fewer than ten tokens are not padded with `NaN`, as pandas would pad them. Every
  line that is not exactly ten tokens is a read error (`ParseError.FieldCount`).
- The case of a row whose fields are `NaN` reaching the country merge is not modelled.
- The source leaves ties between `Failed` rows with equal update times unordered.
  `ExecutionLog.LatestFailed` picks the earliest such row in the log.
- ExecutionLog.LatestFailed: the model uses unbounded times and ids, not uuid text or
  timestamps.
- WeblogFormat.Dotted: its contract states only that the text holds no space or quote.
  `WeblogDomains.DottedOctets` states the octet values.
- WeblogFormat.Zone: its contract states only the length and that the text holds no space or
  quote. `WeblogDomains.ZoneReadsBack` states the sign, hours and minutes.
- WeblogFormat.FormatLine: its contract states the line's start and end only. The whole
  layout is stated by `WeblogParse.FormatUnparse`.
- WeblogParse.Tokenize: its contract states only that a line yields at least one field.
  `WeblogParse.TokenizeUnparse` states what the fields are for a written line.
- Orchestrator.NewEtlJobRun: its contract bounds the rows added. The rows themselves are stated
  by `OrchestratorProofs.FreshLoopShape`.
- Orchestrator.RestartLoop: its contract bounds the rows added. The rows themselves are stated
  by `RestartProofs.RestartLoopShape`.
- WeblogFormat.DatePart: its contract states only that the text holds no space or quote. The
  date's values are stated by `WeblogDomains.GeneratedDateValid`.
- WeblogTransform.ReformatZone: its contract bounds the length and the prefix. The exact text
  for generated zones is stated by `WeblogTransform.ReformatGenerated`.
- Orchestrator.FreshJob: its contract states the row count, when the loop halts and the clock.
  The appended row and the untouched old rows are stated by `OrchestratorProofs.FreshJobShape`.
- Orchestrator.RestartJob: its contract states the row counts, when the loop halts and the
  clock. The reused row and the new row are stated by `RestartProofs.RestartFailedJobShape` and
  `RestartProofs.RestartOtherJobShape`.
- Orchestrator.FreshLoop: its contract bounds the rows added. The rows themselves are stated by
  `OrchestratorProofs.FreshLoopShape`.
- Orchestrator.RestartEtlJobs: its contract names the failed row a restart resumes from and the
  loop it runs. What that loop writes is stated by `RestartProofs.RestartFromLatestFailure`.
- WeblogTransform.JoinTimestamp: its contract states the split round trip only when neither
  column holds a space. A quoted token may hold one, and then splitting the joined text gives more
  than two pieces; the contract says nothing about that case.
- WeblogTransform.TransformRow: its timestamp is `JoinTimestamp` of the log row, so it inherits
  that member's gap: when a column holds a space, the contract does not say what splitting the
  timestamp gives.
- WeblogTransform.ReadWeblogs: each line is tokenized on its own, and a quote still open at the
  end of a line closes there. pandas' tokenizer keeps the line break as field text and reads on
  into the next line, and raises `EOF inside string` when the open quote is on the last line; so
  for such files the model reads rows, or succeeds, where pandas joins lines or fails. Generated
  logs never hold an unbalanced quote (`WeblogDomains.AgentsUnquoted`), so
  `WeblogPipeline.GeneratedLogTransforms` is unaffected.
- WeblogTransform.TransformRows: with two mapping rows for one offset its contract bounds the row
  count only from below. `WeblogTransform.Countries` states how many countries each log row gets.
- WeblogTransform.TransformWeblogs: its contract states only when the transformation succeeds.
  The rows are stated by `WeblogTransform.TransformRows` and
  `WeblogPipeline.GeneratedLogTransforms`.
- The rest of the repository is not part of this model: the taxi-service database scripts,
  `etl_logging.py` and `transform_taxiservice_load.py`.
