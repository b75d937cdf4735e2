# cubox-terminal core, modelled in Dafny

`cu` saves a memo or a bookmark to Cubox from one command line. The free
words of the command line carry the metadata inline: `@folder`, `^title`,
`::tag` and `%description`; every other word is memo text, and `-l URL`
turns the request into a bookmark. The program also keeps two small JSON
records under `~/.cubox`: `config` (the API key) and `data` (how many saves
succeeded today and in total, with a daily rollover).

The model covers the decision logic of `src/lib.rs`:

- `CommandLine`: `strip_prefix`, the classification of a free word by its
  first sigil in the fixed order `@`, `^`, `::`, `%`, and the value of an
  option that may carry an argument.
- `Request`: `build_request` as a fold over the words (`Fold`), the
  `--url` override and the two validation errors (`Build`), and the
  loop as the source writes it (`BuildRequest`). Independent reference
  definitions (`LastWins`, `TagsOf`, `ContentOf`) state the overwrite,
  append and concatenation laws, and lemmas connect them to the fold.
- `Usage`: `UserData`, the rollover of the today-count, the `-c` display
  view and the update after a successful save.
- `Store`: `load` and `store` over an abstract disk (home directory
  present or not, records by name), with the first-use bootstrap of
  `config` and `data`.
- `Cli`: `handle_options` (option precedence, `-c`, `-k`) and
  `check_response`.

Dates are day numbers (`int`), and "today" is a parameter wherever the
source reads the local clock. A panic from an `unwrap` (a record of the
wrong shape under `data`, for one) is the explicit outcome `Panic` /
`SavePanic`.

The memo text keeps the trailing space after its last word, and the
"nothing to save" test is a raw emptiness test with no trimming
(`src/lib.rs:208-209`, `src/lib.rs:224`), so the lone empty word `""`
gives the content `" "` and is accepted, while `-l ""` is nothing to save.

## Model

| member | source | states |
|---|---|---|
| CommandLine.StripPrefix | src/lib.rs:185 | the result is present exactly when the word starts with the prefix, and prefix followed by the result is the word |
| CommandLine.Classify | src/lib.rs:184-210 | a word is a folder, title, tag or description word exactly when its first matching sigil in the order `@`, `^`, `::`, `%` is that one, content otherwise; the payload is the rest of the word, and the word is recovered from its class |
| CommandLine.ClassifySpell | src/lib.rs:184-210 | classification is a bijection: re-classifying a spelled word gives back its class, so `@^x` is the folder `^x` and `^::x` the title `::x` |
| Request.Step | src/lib.rs:184-210 | one word changes exactly one field, chosen by its first sigil; tags are appended, content grows by the word and a space, every other field is unchanged |
| Request.StepField | src/lib.rs:184-210 | a word overwrites folder, title or description only when it carries that field, and leaves the other two alone |
| Request.Fold | src/lib.rs:175-210 | after the fold the request is a memo and its tags are never `Some([])` |
| Request.OverwriteLaw | src/lib.rs:185-206 | folder, title and description each hold the payload of the last word that writes them, and are `None` when no word does |
| Request.AppendLaw | src/lib.rs:193-202 | tags are the payloads of all `::` words in encounter order, duplicates kept, and `None` when there is none |
| Request.TagsMembership | src/lib.rs:193-202 | a string is among the tags exactly when some `::` word carries it |
| Request.TagsPresentIff | src/lib.rs:193-202 | the tags field is `Some` exactly when at least one word is a `::` word |
| Request.ContentLaw | src/lib.rs:208-209 | the memo text is the concatenation of every plain word followed by one space, in order |
| Request.ContentEmptyIff | src/lib.rs:208-226 | the memo text is empty exactly when no word is plain |
| Request.Build | src/lib.rs:174-229 | `-l` without a value is the URL error whatever the words; with a value the request is a bookmark whose content is that value and it succeeds exactly when the value is non-empty; without `-l` it is a memo of the plain words and succeeds exactly when one exists; in every success folder, title, description and tags obey the overwrite and append laws and the content is non-empty |
| Request.BuildRequest | src/lib.rs:174-229 | the loop over the words followed by the URL and emptiness checks computes exactly `Build` |
| Request.Examples | src/lib.rs:174-229 | a bare URL is a bookmark, no words and no URL is nothing to save, `-l ""` is nothing to save, `[""]` is the memo `" "`, and `hello world` is the memo `"hello world "` |
| Usage.RollOver | src/lib.rs:257-261 | a stale today-count becomes zero; nothing else changes, and a current record is returned as it is |
| Usage.RollOverIdempotent | src/lib.rs:257-261 | rolling over twice on the same day is rolling over once |
| Usage.DisplayCounts | src/lib.rs:138-153 | the shown today-count is zero exactly when the stored day is past or the stored count is zero, the stored count otherwise; the total is the stored total |
| Usage.RecordSuccess | src/lib.rs:253-265 | a success stamps today as the last date, even before the stored date, adds one to the total, and makes the today-count one more than the display showed |
| Usage.DisplayAfterRecord | src/lib.rs:253-265 | after a save, the same-day display shows one more save today and one more in total |
| Usage.DisplayNextDay | src/lib.rs:138-153 | on any later day than the last save, the display shows zero today and the total including that save |
| Usage.SameDayAccumulates | src/lib.rs:257-264 | n saves on one day raise the today-count by n from what was shown and the total by n |
| Usage.SavesKeepConsistent | src/lib.rs:257-264 | any sequence of saves, on any days, adds its length to the total, leaves the last day stamped, and keeps the today-count at most the total |
| Store.Default | src/lib.rs:35-48 | only `config` and `data` have a first-use record: no API key, and no date with both counts zero |
| Store.Save | src/lib.rs:53-69 | storing fails exactly when there is no home directory; otherwise the named record is replaced wholesale and no other record changes |
| Store.Load | src/lib.rs:23-51 | no home directory is an error; a present record is returned and nothing is written; a missing `config` or `data` is created with its default and that default is returned; any other missing name is the error naming it |
| Store.LoadTwice | src/lib.rs:33-48 | a second load right after the first returns the same record and writes nothing |
| Store.SaveThenLoad | src/lib.rs:53-69 | what was stored is loaded back unchanged |
| Store.Bootstrap | src/lib.rs:36-46 | each of `config` and `data`, when missing, loads as its first-use value: no API key; no date and zero counts |
| Cli.HandleOptions | src/lib.rs:127-171 | `-v`, then `-h`, then `-c`, then `-k` decide; `-c` shows the display view of the stored counters (zeros on first use) and writes nothing but the first-use `data` record; `-k KEY` replaces the whole configuration by one holding KEY; `-k` with no value is an error; with none of these options the call continues to the request; continuing, failing and panicking write nothing; the home directory is never removed |
| Cli.Precedence | src/lib.rs:127-171 | options after the first present one, in the order `-v`, `-h`, `-c`, `-k`, do not change the outcome |
| Cli.SetKeyThenLoad | src/lib.rs:156-164 | after `-k KEY` the configuration loads back with exactly KEY, and the counters are untouched |
| Cli.CheckResponse | src/lib.rs:253-270 | a code other than 200 reports the server's message and writes nothing; code 200 stores the counters updated by one save on today, and panics exactly when the counters cannot be loaded, writing nothing; the home directory is never removed |
| Cli.CountAfterSave | src/lib.rs:253-265 | a save accepted today followed by `-c` today shows one more save today and in total than before |

## Left out

- `send_request` (src/lib.rs:231-251): the network call and the building of the API URL; its only decision, refusing to send without an API key, is not modelled.
- `get_matches` and getopts itself (src/lib.rs:111-125): options arrive already parsed, as `Flags` and a `FlagOpt` for `-l`.
- `print_usage`, the version text and the coloured output (src/lib.rs:101-107, 128-136, 146-152, 163, 266): presentation only.
- The message texts of the errors and the serialised `type` strings `"memo"` and `"url"` (src/lib.rs:161, 167, 176, 215, 219, 225, 269): errors and kinds are the enumerations `BuildError`, `OptionError` and `Kind`, and a rejected save is `SaveFailed` carrying the server's message without the `✕ Save failed: ` prefix; their presentation is left to the caller.
- The file system: home-directory lookup, paths, JSON (de)serialisation and pretty-printing are an abstract `Disk`; I/O failures other than a missing home directory or a missing file (src/lib.rs:49, 62, 67) are not modelled.
- The local clock: today is a day number passed in.
- Usage.RecordSuccess: the counters are unbounded, so the `i32` overflow of `count_today += 1` and `count_total += 1` (src/lib.rs:263-264) is not modelled.
- src/main.rs is an older revision of the same program built on other libraries; it is not part of this model.
