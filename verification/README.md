# Facebook ads performance downloader — a Dafny model of its core

This project models the logic of `facebook_downloader/downloader.py`, the
module that downloads Facebook ad account structure and daily ad
performance:

- **Rate-limit retry wrapper** (`rate_limiting`). When the Facebook API
  answers with error code 17, the wrapper invokes the call again. It
  sleeps `60 * 2^k` seconds before retry `k` and makes at most seven
  retries. Any other outcome is handed back or re-raised.
- **Label parsing** (`parse_labels`). It finds the leftmost
  `{key=value}` in each label name, normalises the key with
  `lower().title()`, and lets later labels overwrite earlier ones.
- **Account structure** (`get_campaign_data`, `get_ad_set_data`,
  `get_ad_data`, `download_account_structure_per_account`). The API
  objects become dictionaries keyed by id. Each ad is then joined to its
  ad set and campaign to give one nine-column row. Its attribute maps are
  merged so that ad overrides ad set, and ad set overrides campaign.
- **Ad performance day selection** (`download_ad_performance`,
  `_first_download_date_of_ad_account`). For each account the walk runs
  from yesterday down to the first download date. A day is downloaded
  when its database file is missing or the day lies within the
  redownload window.

`download_ad_performance` is sequential: it downloads one account and one
day at a time, and so does the model.

Modules, one per component:
- `Wrappers` (`wrappers.dfy`): `Option` and `Result`.
- `RateLimiting` (`rate_limiting.dfy`).
- `Labels` (`labels.dfy`).
- `Dicts` (`dicts.dfy`): Python dictionaries, which keep insertion order.
- `AccountStructure` (`account_structure.dfy`).
- `AdPerformance` (`ad_performance.dfy`).

Modelling choices:
- The wrapped call is a function `calls: nat -> CallOutcome<T>`, where
  `calls(k)` is what invocation `k` returns or raises.
- Sleeps are recorded as durations in seconds, not performed.
- Days are integer day numbers.
- A database file is identified by its account id and day (`DbFile`).
  The set of existing files is an input, and it grows as downloads create
  files.
- The code uses loops that update variables in `rate_limiting`,
  `parse_labels`, the `get_*_data` functions and the day walk. Each of
  these is a `method` with a loop, proved equal to a specification
  function. The properties are then proved as lemmas about that function.
- The row construction and the first-date computation are pure, so they
  are functions.
- The documentation of `parse_labels` shows names such as `{key_1=value_1}`
  and a result `{key_1 : value_1, ...}`. The code's pattern admits only
  letters, the vertical bar and underscores, so such a name yields no
  entry (`Labels.DocumentedExampleIgnored`). Even a matching key would be
  title-cased, as in `Key_A`. The model follows the code.

## Model

| member | source | states |
|---|---|---|
| `RateLimiting.RateLimited` | facebook_downloader/downloader.py:160-178 | The result is the outcome of invocation n, where n is the number of sleeps and n is at most 7. Every earlier invocation hit the rate limit (code 17) and was followed by a sleep of exactly `60 * 2^k` seconds. The loop stops at the first other outcome or after the seventh retry. This agrees with `Retry`. |
| `RateLimiting.RetryFromShape` | facebook_downloader/downloader.py:163-178 | The same shape holds for a run that starts after any number of retries: the result is the last invocation's outcome, each earlier invocation hit the rate limit, and each sleep is the matching backoff. |
| `RateLimiting.StopsAtFirstOtherOutcome` | facebook_downloader/downloader.py:164-178 | Suppose the first invocation that is not a code-17 error is invocation n, with n at most 7. Then the wrapper hands back exactly that outcome, after exactly the backoffs 0..n-1. |
| `RateLimiting.FirstSuccessWithoutSleep` | facebook_downloader/downloader.py:165-166 | If the first invocation returns, its value is returned without any sleep. |
| `RateLimiting.NonRateLimitErrorReraised` | facebook_downloader/downloader.py:167-178 | An API error with a code other than 17 is re-raised at once, with no retry and no sleep. |
| `RateLimiting.ExhaustedAfterEightRateLimitErrors` | facebook_downloader/downloader.py:170-178 | If eight invocations in a row hit the rate limit, the wrapper makes exactly seven sleeps and re-raises the eighth error. |
| `RateLimiting.RetryShape` | facebook_downloader/downloader.py:163-178 | Every whole run has the shape stated for `RateLimited`: the result is invocation n's outcome, the n earlier invocations hit the rate limit, sleep k lasts `60 * 2^k` s, and the run ends at the first other outcome or after the seventh retry. |
| `RateLimiting.SleepsDouble` | facebook_downloader/downloader.py:170-176 | The first sleep lasts 60 s, and each later sleep doubles the one before it. |
| `RateLimiting.TotalSleep` | facebook_downloader/downloader.py:170-176 | There are at most seven sleeps. n sleeps total `60 * (2^n - 1)` s, never more than 7620 s. |
| `Labels.RunEnd` | facebook_downloader/downloader.py:369 | Returns the end of the longest run, from a position, of characters in the class (letters, vertical bar, underscore): every character in the run is in the class, and the character after it is not. So any run that cannot be extended ends there. |
| `Labels.MatchAt` | facebook_downloader/downloader.py:369 | A match it reports at a position is a real occurrence of `{word=word}` there, with the two groups. |
| `Labels.MatchAtComplete` | facebook_downloader/downloader.py:369 | Every occurrence of the pattern at a position is found by `MatchAt`, with the same groups. So a match at a position is unique. |
| `Labels.SearchFrom` | facebook_downloader/downloader.py:369 | A match reported by the search is a real occurrence at or after the start position. |
| `Labels.SearchFromLeftmost` | facebook_downloader/downloader.py:369 | If the pattern occurs at position i, the search reports a match starting at or before i. If that match starts at i, it has the same groups. |
| `Labels.SearchSpec` | facebook_downloader/downloader.py:369-370 | `Labels.Search` models `re.search`. It finds nothing exactly when the pattern occurs nowhere. Otherwise it finds the leftmost occurrence, together with its groups. |
| `Labels.Lower` | facebook_downloader/downloader.py:371 | `lower()` maps every character to its lower-case form and keeps the length. |
| `Labels.TitleFromAt` | facebook_downloader/downloader.py:371 | `Labels.Title` models `str.title()`. In it, a character is lower-cased when the input character before it is cased, and upper-cased otherwise. |
| `Labels.NormaliseKeyAt` | facebook_downloader/downloader.py:371 | Character p of `title(lower(key))` is the lower-case form of the key's character when the character before it is cased, and the upper-case form otherwise. Lower-casing first does not change which characters are cased. |
| `Labels.NormaliseKey` | facebook_downloader/downloader.py:371 | The normalised key has the key's length. A letter at the start, or after a non-letter, is upper case. Every other letter is lower case. Other characters are unchanged. |
| `Labels.NormaliseKeyExample` | facebook_downloader/downloader.py:371 | `my_key` normalises to `My_Key`. |
| `Labels.DocumentedExampleIgnored` | facebook_downloader/downloader.py:359-364 | The name `{key_1=value_1}` from the function's documentation does not match the pattern, because digits are outside the character class, so that label adds no entry. |
| `Labels.ParseLabels` | facebook_downloader/downloader.py:355-374 | The dictionary the loop builds equals `LabelsDict`. Every key in it comes from a label whose name matches the pattern. |
| `Labels.LabelsDictKeys` | facebook_downloader/downloader.py:367-374 | A key is present exactly when some label's name matches and its normalised group 1 is that key. All other labels are ignored. |
| `Labels.LabelsDictLastWins` | facebook_downloader/downloader.py:372-373 | A key's value is group 2, unchanged, of the last label that sets that key. A later label overwrites an earlier one. |
| `Dicts.Insert` | facebook_downloader/downloader.py:207-209 | Assigning `d[k] = v` keeps the dictionary well formed and sets `k` to `v`. A new key goes to the end of the iteration order. An existing key keeps its place. |
| `Dicts.FromPairsKeys` | facebook_downloader/downloader.py:204-210 | The dictionary a filling loop builds has exactly the keys that the loop assigned. |
| `Dicts.FromPairsLastWins` | facebook_downloader/downloader.py:206-209 | Each key holds the value of its last assignment. |
| `Dicts.FromPairsOrder` | facebook_downloader/downloader.py:125 | Keys are iterated in the order of their first assignment. |
| `AccountStructure.GetCampaignData` | facebook_downloader/downloader.py:266-272 | The loop builds the dictionary from campaign id to name and parsed labels, with later campaigns overwriting earlier ones. |
| `AccountStructure.GetAdSetData` | facebook_downloader/downloader.py:236-243 | The loop builds the dictionary from ad set id to name, campaign id and parsed labels, with later ad sets overwriting earlier ones. |
| `AccountStructure.GetAdData` | facebook_downloader/downloader.py:204-210 | The loop builds the dictionary from ad id to name, ad set id and parsed labels, with later ads overwriting earlier ones. |
| `AccountStructure.AdDataSpec` | facebook_downloader/downloader.py:206-209 | Every ad id is a key. It holds the name, ad set id and parsed labels of the last ad with that id. |
| `AccountStructure.AdDataKeys` | facebook_downloader/downloader.py:204-210 | The ad data has no key that is not the id of a returned ad. |
| `AccountStructure.MergeAttributes` | facebook_downloader/downloader.py:131-133 | The keys are the union of the three maps. An ad's value overrides its ad set's, and an ad set's value overrides its campaign's. |
| `AccountStructure.JoinAd` | facebook_downloader/downloader.py:126-143 | A missing ad set id or campaign id gives the matching `KeyError`. Otherwise the row links the ad to its own ad set and that ad set's campaign. It carries their names and the account, and its attributes are the merged map. |
| `AccountStructure.JoinAll` | facebook_downloader/downloader.py:125-145 | The result is one row per ad, in order, exactly when every ad joins. Otherwise it is the error of the first ad that fails, and all earlier ads join. |
| `AccountStructure.AccountStructureRows` | facebook_downloader/downloader.py:109-145 | The result is exactly one nine-field row per entry of the ad data, in its iteration order. Each row's ids follow ad → ad set → campaign, and its attributes are the override union. Otherwise it is the `KeyError` of an ad whose ad set or campaign is missing. |
| `AdPerformance.FirstDownloadDate` | facebook_downloader/downloader.py:457-476 | Returns the maximum of the configured first date and the account's creation day. Without a creation time it returns the configured date. It is never earlier than the configured date. |
| `AdPerformance.DaysDescendingAt` | facebook_downloader/downloader.py:93-106 | The walk has `last - first + 1` steps, or none when `first > last`. Step i visits `last - i`. |
| `AdPerformance.DaysDescendingVisitsEachOnce` | facebook_downloader/downloader.py:93-106 | The walk visits every day from `last_date` down to `first_date`, and no other day, in strictly descending order (so each day once). |
| `AdPerformance.Selected` | facebook_downloader/downloader.py:100-105 | A day is selected exactly when it is visited and needs downloading. |
| `AdPerformance.SelectedDescending` | facebook_downloader/downloader.py:93-106 | The downloads keep the walk's strictly descending order. |
| `AdPerformance.DownloadAccountDays` | facebook_downloader/downloader.py:93-106 | The loop visits exactly the days of `DaysDescending`, and downloads exactly the visited days that need it, in the same order. |
| `AdPerformance.DownloadedDaysSpec` | facebook_downloader/downloader.py:100-105 | A day is downloaded exactly when it lies in the walk and either its file is missing or `last_date - day <= redownload_window`. Every day inside the window is downloaded again, and downloads come newest first. |
| `AdPerformance.AccountDownloadsSpec` | facebook_downloader/downloader.py:90-106 | One account's walk downloads exactly the files of that account whose day lies between its first download date and yesterday, and that were missing or are within the window. |
| `AdPerformance.DownloadAdPerformance` | facebook_downloader/downloader.py:85-106 | The account loop downloads the files of `Plan` in order. Afterwards the existing files are the earlier ones plus every download. |
| `AdPerformance.PlanSpec` | facebook_downloader/downloader.py:85-106 | With distinct account ids, a file is downloaded exactly when one account's walk selects it, judged against the files present before the run. |

## Left out

- The Facebook API calls are not modelled: `FacebookAdsApi.init`, `get_ads`, `get_ad_sets`, `get_campaigns`, `get_insights` and `_get_ad_accounts`. They are network calls, so their results are given as sequences of records.
- `@rate_limiting` is not applied to the individual fetches. `RateLimited` states the wrapper for any call, given the outcome of each invocation.
- `time.sleep` and `logging` are not modelled: sleeps are recorded as durations, and log output has no effect on the logic.
- `download_data`, `download_data_sets`, `download_account_structure` and `ensure_data_directory` are left out. They do I/O: gzip, csv, temporary files, `shutil.move` and directory creation.
- The database path `YYYY/MM/DD/facebook/ad-performance-act_<id>.sqlite3` is not built as a string. `DbFile(accountId, day)` stands for it, and `db_name.is_file()` is membership in a set of such files.
- `_upsert_ad_performance`, `_to_insight_row_tuples`, `_floatify` and `_floatify_values` are left out. They do sqlite writes, float parsing and JSON serialisation.
- `json.dumps` of the attributes is left out: a row keeps the attribute map itself. The order of keys inside the attributes JSON is not modelled.
- `datetime.now`, the time-zone offset and `strptime` are left out. Each account's creation day arrives as a day number, and `yesterday` supplies the last date of each account.
- `DownloadAdPerformance`: does not model a failing download or upsert. Either would raise and end the Python loop; the model assumes every selected day downloads and its file is created.
- `AccountStructureRows`: when a lookup raises `KeyError`, the generator has already yielded the rows of earlier ads. The model returns only the error, because the caller writes those rows to a temporary file that is never moved into place.
- `Labels.Lower` and `Labels.NormaliseKey` handle ASCII only. The pattern's groups can hold nothing else. `strip()` is omitted because the groups hold no whitespace.
- `facebook_downloader/cli.py`, `facebook_downloader/config.py`, `setup.py` and `facebook_downloader/__init__.py` are left out. They are option wiring, constants and packaging, with no logic.
- `RateLimiting.RateLimited`: a `FacebookRequestError` whose `api_error_code()` is `None` is modelled as an error with some code other than 17. The code treats both the same way: it re-raises them.
- `Labels.ParseLabels`: a label without a `name` field, which would raise `KeyError`, is not modelled. Every label carries a name.
