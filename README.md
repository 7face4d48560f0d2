# Bike-share explorer: validation, data files and the main header

This project models the parts of the bike-share explorer that have real
logic in the code. There are four of them.

- **`Validate`** (validate.py) reads the user's choices from the console.
  These are a city, a filter mode (`month`, `day` or `none`), a month of
  the first half-year, a weekday, and a yes/no answer to quitting. Each
  prompt loop lower-cases the typed line and accepts it only when it equals
  one of the accepted words of a candidate.
- **`CsvData`** (csv_data.py) scans a directory listing. It registers every
  `.csv` file under a city key built from the file name, and it loads one
  city's trips or all of them. Each loaded row gets a `Trip` column,
  `start + "_" + end`.
- **The older `CsvData`** (CsvData.py) keeps the `.csv` file names in a
  list instead. Its `show_data` is a stub.
- **`PrettyPrint`** (pretty_print.py) keeps the filter options. It draws
  the main header as a box of `#` around the title line and the filter
  lines.

## How the model is built

Console input is a sequence of lines. Each prompt loop is a `method` with a
`while` loop. It returns the first accepted answer and the number of lines
it read. Its contract ties it to the function `FirstReply`, and the lemmas
about `FirstReply`, `MatchName` and the variant tables state what the loop
accepts. When every line is rejected, the loop returns `Reject`; the Python
loop would prompt again forever.

A directory listing is a sequence of file names. Reading a CSV file is a
function parameter from a file name to its rows. Both `CsvData` classes are
Dafny classes whose methods update the same fields as the Python methods.
In csv_data.py, `_filenames` is a Python dict. It is modelled as a `Dict`
value: the keys in insertion order plus a map. Python dicts keep insertion
order, and `get_city_names` returns the keys in that order.

`_fancy_header_main` prints lines. The model returns the sequence of
printed lines. It also appends `'Unfiltered'` and `' '` to the caller's
list, as the Python does. That list is a `StringList` object.

Exceptions the code raises are `Err` values:

- `KeyError` for an unknown city in `get_data`;
- `ValueError` for `max` of an empty list;
- `TypeError` or `ValueError` when `month, day = filter_by` cannot unpack.

### Notes on the code

- There is no statistics code to model. `DataStats` (data_stats.py:9-15)
  has only an empty `__init__`, and `show_start_time_stats`
  (pretty_print.py:84-91) does nothing in either branch.
- `_filenames` in csv_data.py is a dict, which keeps insertion order, and
  `get_city_names` (csv_data.py:46-51) returns its keys in that order.
  `CsvDataMap.ScanKeepsOrder` and `CsvDataMap.CsvData.GetData` state that
  the order is kept.
- `_csv_files_available` follows the size of the dict, not the listing
  (csv_data.py:35-38). When the dict is still empty after a scan (for
  example, the first scan of a listing with no `.csv` file),
  `get_filenames` sets it to `False` (csv_data.py:35-36). The dict is never
  cleared (csv_data.py:21, 30-33), so a later scan without a `.csv` file
  keeps the earlier entries and the flag stays `True`
  (`CsvDataMap.ScanWithoutCsv`). Nothing is raised.
- `get_data` looks a truthy city up in the dict (csv_data.py:79-80). An
  unknown city raises `KeyError`. An empty string or `None` loads every
  city (csv_data.py:82-86).
- The `Trip` column joins the two stations with `_` (csv_data.py:59-60).
  Two station pairs can give the same trip name when a station holds `_`:
  `CsvDataMap.TripAmbiguous` gives such a pair. `CsvDataMap.TripRoundTrip`
  proves the name determines the stations when the start station holds no
  underscore.
- The city key is `f[:-4].replace("_", " ").title()` (csv_data.py:32). Two
  file names whose stems agree up to letter case and `_` against space get
  the same key, and the later file in the listing wins
  (`CsvDataMap.FileKeySameUpToCase`, `CsvDataMap.ScanLastWins`).

## Model

| member | source | states |
|---|---|---|
| Validation.FindFirst | validate.py:39-41 | the index returned is the first candidate the test accepts; `None` means no candidate is accepted |
| Validation.MatchName | validate.py:37-41 | an accepted name is a candidate, one of its variants equals the lower-cased input, and no earlier candidate matches; `Reject` means no candidate matches |
| Validation.MatchMode | validate.py:53-65 | an accepted mode is one of `None`, `'m'`, `'d'` |
| Validation.CityKey | validate.py:40 | the word a candidate city is compared with: its lower case with every `' city'` removed; the city lemmas below give its value on the shipped cities |
| Validation.MonthVariants | validate.py:77-78 | a month is accepted by its first three letters or its full name, both lower-cased; the month lemmas below list each month's words |
| Validation.DayVariants | validate.py:94-96 | a weekday is accepted by its first three letters, its first four letters or its full name, all lower-cased; the day lemmas below list each day's words |
| Validation.MatchQuit | validate.py:121-126 | one reading of `quit_program`: `y` or `yes` gives `True`, then `n` or `no` gives `False`, after lower-casing; any other line is rejected |
| Validation.FilterComponents | validate.py:106-113 | what `get_filter_components` returns and how many lines its two prompts read; the three FilterComponents lemmas below state its outcomes |
| Validation.FirstReply | validate.py:34-43 | a prompt loop reads at most the lines it is given |
| Validation.FirstReplyMeans | validate.py:34-43 | the loop returns the answer of the first accepted line, after rejecting every line before it; `Reject` means every line was read and rejected |
| Validation.FirstReplyAccepted | validate.py:34-43 | an accepted answer is the parse of the last line the loop read |
| Validation.FirstReplySkips | validate.py:34-43 | rejected lines are read and skipped: the result equals the result on the remaining lines, plus the skipped count |
| Validation.Validate.constructor | validate.py:12-19 | the candidate lists are the first six month names and the seven weekday names; the filter mode starts as `None` |
| Validation.Validate.GetCityFilter | validate.py:21-43 | returns the first accepted line's city, a name from `city_names` as written there, and the number of lines read |
| Validation.Validate.GetFilterMode | validate.py:45-65 | returns the mode of the first line reading `month`, `day` or `none`; `_filter_mode` is updated only when a line is accepted |
| Validation.Validate.GetMonthComponent | validate.py:67-82 | returns the first accepted line's month, one of the six month names |
| Validation.Validate.GetDayComponent | validate.py:84-100 | returns the first accepted line's weekday, one of the seven day names |
| Validation.Validate.GetFilterComponents | validate.py:102-113 | reads nothing when the mode is falsy; otherwise reads a month, and in mode `'d'` then a day from the following lines |
| Validation.Validate.QuitProgram | validate.py:115-128 | `y`/`yes` gives `True` and `n`/`no` gives `False`, in any case; other lines are rejected |
| ValidationFacts.CaseInsensitive | validate.py:37-41 | the city, month, day, mode and quit matches (the lower-casing at validate.py:37, 53, 74, 91 and 121) give the same answer for an input and for its lower-cased form |
| ValidationFacts.ModeWords | validate.py:55-65 | a mode is accepted exactly when the lower-cased input is its word, and every other input is rejected |
| ValidationFacts.JanuaryVariants | validate.py:76-78 | January accepts `jan` and `january` |
| ValidationFacts.FebruaryVariants | validate.py:76-78 | February accepts `feb` and `february` |
| ValidationFacts.MarchVariants | validate.py:76-78 | March accepts `mar` and `march` |
| ValidationFacts.AprilVariants | validate.py:76-78 | April accepts `apr` and `april` |
| ValidationFacts.MayVariants | validate.py:76-78 | May accepts `may` twice, as prefix and as full name |
| ValidationFacts.JuneVariants | validate.py:76-78 | June accepts `jun` and `june` |
| ValidationFacts.MondayVariants | validate.py:93-96 | Monday accepts `mon`, `mond` and `monday` |
| ValidationFacts.TuesdayVariants | validate.py:93-96 | Tuesday accepts `tue`, `tues` and `tuesday` |
| ValidationFacts.WednesdayVariants | validate.py:93-96 | Wednesday accepts `wed`, `wedn` and `wednesday` |
| ValidationFacts.ThursdayVariants | validate.py:93-96 | Thursday accepts `thu`, `thur` and `thursday` |
| ValidationFacts.FridayVariants | validate.py:93-96 | Friday accepts `fri`, `frid` and `friday` |
| ValidationFacts.SaturdayVariants | validate.py:93-96 | Saturday accepts `sat`, `satu` and `saturday` |
| ValidationFacts.SundayVariants | validate.py:93-96 | Sunday accepts `sun`, `sund` and `sunday` |
| ValidationFacts.MatchNameIff | validate.py:76-80 | when no two candidates share a three-letter key, the search returns a candidate exactly when the input is one of that candidate's words |
| ValidationFacts.MonthKeysDistinct | validate.py:12 | the six months have pairwise different three-letter keys |
| ValidationFacts.DayKeysDistinct | validate.py:13 | the seven weekdays have pairwise different three-letter keys |
| ValidationFacts.MonthIff | validate.py:74-80 | a month is returned exactly when the input is its full name or its three-letter prefix, in any case |
| ValidationFacts.DayIff | validate.py:91-98 | a weekday is returned exactly when the input is its full name or its three- or four-letter prefix, in any case |
| ValidationFacts.SpacesRejected | validate.py:53-65 | a line holding a space is never a mode word, and never a yes/no answer of validate.py:121-126, since nothing is stripped |
| ValidationFacts.CityKeyWithoutSpace | validate.py:40 | a candidate city without a space is compared in lower case only |
| ValidationFacts.ChicagoKey | validate.py:40 | "Chicago" is chosen by `chicago` |
| ValidationFacts.WashingtonKey | validate.py:40 | "Washington" is chosen by `washington` |
| ValidationFacts.NewYorkKey | validate.py:40 | "New York City" is compared with `new york` |
| ValidationFacts.CityChosen | validate.py:40 | a candidate city is chosen exactly by the input whose lower case equals its key |
| ValidationFacts.NewYorkCity | validate.py:37-41 | "New York City" is chosen exactly by `new york`, in any case, and not by its full name |
| ValidationFacts.FilterComponentsNone | validate.py:106-113 | `None` is returned, after reading nothing, exactly when the mode is falsy |
| ValidationFacts.FilterComponentsMonth | validate.py:106-111 | in a truthy mode other than `'d'`, the result is the month of the last line read, one of the month names |
| ValidationFacts.FilterComponentsDay | validate.py:106-110 | in mode `'d'`, the result is `[month, day]`; the month comes from an earlier line than the day, and both are candidates |
| CsvDataMap.FileKey | csv_data.py:32 | the city key of a `.csv` file: the name without `.csv`, `_` replaced by a space, then title-cased; FileKeyAt and the lemmas after it state what it is |
| CsvDataMap.FileKeyAt | csv_data.py:32 | the key has one character per character of the stem; `_` becomes a space and a letter is upper-cased exactly when it starts a word |
| CsvDataMap.FileKeyCaseBlind | csv_data.py:32 | the key differs from the stem with spaces for underscores only in letter case |
| CsvDataMap.FileKeySameUpToCase | csv_data.py:32 | two files whose stems, with spaces for underscores, agree up to letter case get the same key |
| CsvDataMap.FileKeyStemCaseBlind | csv_data.py:32 | two files whose stems differ only in letter case get the same key |
| CsvDataMap.NewYorkFileKey | csv_data.py:32 | `new_york_city.csv` is registered as "New York City" |
| CsvDataMap.Put | csv_data.py:33 | a dict assignment maps the key to the new value; a new key goes last, an existing key keeps its place, and distinct keys stay distinct |
| CsvDataMap.Scan | csv_data.py:30-33 | the dict the loop of `get_filenames` leaves, entry by entry, each `.csv` entry assigned under its key; the Scan lemmas below state what it holds |
| CsvDataMap.ScanWithoutCsv | csv_data.py:30-38 | a listing without a `.csv` entry leaves the dict unchanged, so a non-empty dict keeps `_csv_files_available` true |
| CsvDataMap.ScanWellFormed | csv_data.py:30-33 | after a scan, the keys are distinct, and every file is a `.csv` registered under its own key |
| CsvDataMap.ScanKeys | csv_data.py:30-33 | a key is present after a scan exactly when it was present before or some `.csv` entry yields it |
| CsvDataMap.ScanLastWins | csv_data.py:32-33 | of several entries with the same key, the last one in listing order is stored |
| CsvDataMap.ScanKeepsOthers | csv_data.py:30-33 | a key no entry yields keeps its old file, since the dict is never cleared |
| CsvDataMap.ScanKeepsOrder | csv_data.py:33 | keys already present keep their order at the front |
| CsvDataMap.ScanValues | csv_data.py:30-33 | every stored file is an old value or a `.csv` entry of the listing registered under its own key |
| CsvDataMap.TripName | csv_data.py:59-60 | the trip name is the start station, one `_`, then the end station |
| CsvDataMap.SplitTrip | csv_data.py:59-60 | the reference inverse of the trip name, splitting at the first `_`; the source never splits a trip name, and it is used only by TripRoundTrip and TripAmbiguous |
| CsvDataMap.TripRoundTrip | csv_data.py:59-60 | splitting at the first `_` gives back both stations when the start station has no `_` |
| CsvDataMap.TripAmbiguous | csv_data.py:59-60 | `A_B`→`C` and `A`→`B_C` get the same trip name, and splitting it gives the second pair |
| CsvDataMap.ConvertToDataframe | csv_data.py:53-61 | one row per row read, the stations kept, each with its trip name |
| CsvDataMap.ConvertAll | csv_data.py:83-86 | the loop over `_filenames.items()` builds a dict with the same keys in the same order, each mapped to its file's converted frame |
| CsvDataMap.CsvData.constructor | csv_data.py:15-23 | the dict holds exactly what one scan of the listing from an empty dict leaves; the flag says whether it is non-empty |
| CsvDataMap.CsvData.GetFilenames | csv_data.py:25-38 | the dict becomes the scan of the listing from the old dict; the flag is reset from the dict's size |
| CsvDataMap.CsvData.CsvFilesAvailable | csv_data.py:40-44 | true exactly when some city is registered |
| CsvDataMap.CsvData.GetCityNames | csv_data.py:46-51 | exactly the registered cities, each once |
| CsvDataMap.CsvData.GetData | csv_data.py:63-86 | a truthy unknown city gives `KeyError`; a known city gives its file's frame; a falsy city gives every city's frame, keyed in the same order |
| CsvDataList.CsvOnly | CsvData.py:27-29 | the kept names are no more than the listing |
| CsvDataList.CsvOnlyAppend | CsvData.py:27-29 | filtering a listing in two parts is filtering each part, in order |
| CsvDataList.CsvOnlyMembers | CsvData.py:27-29 | a name is kept exactly when it is in the listing and ends in `.csv` |
| CsvDataList.CsvOnlySubsequence | CsvData.py:27-29 | the kept names appear in listing order |
| CsvDataList.CsvData.constructor | CsvData.py:14-20 | the list is the `.csv` entries of the listing; the flag says whether it is non-empty |
| CsvDataList.CsvData.GetFilenames | CsvData.py:22-34 | the `.csv` entries are appended to the old list; the flag is reset from the list's length |
| CsvDataList.CsvData.CsvFilesAvailable | CsvData.py:36-40 | false exactly when the list is empty |
| CsvDataList.CsvData.ShowData | CsvData.py:42-57 | the stub returns `None` |
| PrettyPrinting.TitleLine | pretty_print.py:61 | the title line, `Statistics for ` and the city as `format` shows it |
| PrettyPrinting.UnpackPair | pretty_print.py:67 | `month, day = filter_by` on the three shapes `filter_by` takes; UnpackPairFails states when it raises |
| PrettyPrinting.ShowComponents | pretty_print.py:71 | `format` of `filter_by`: `None`, the month name, or the list's `repr` |
| PrettyPrinting.HeaderStrings | pretty_print.py:61-72 | the list `main_header` builds, or the exception unpacking raises; HeaderStringsShape states its shape |
| PrettyPrinting.HeaderStringsShape | pretty_print.py:61-72 | the title comes first; the list has one string without a mode, four in mode `'d'` and exactly three in any other truthy mode, with "Filtered by" second and the month line third; building it fails only when `filter_by` cannot unpack in mode `'d'` |
| PrettyPrinting.UnpackPairFails | pretty_print.py:67 | unpacking raises `TypeError` exactly on `None`, and `ValueError` exactly on a string whose length is not two |
| PrettyPrinting.Longest | pretty_print.py:24 | the longest string's length: no string is longer, and some string has it |
| PrettyPrinting.Extended | pretty_print.py:25-28 | the appends keep the list's strings in front and add one or two more |
| PrettyPrinting.Border | pretty_print.py:33 | the border row, `#` repeated four more times than the longest string is long |
| PrettyPrinting.Boxed | pretty_print.py:34-36 | a string centred in a field two wider than the longest string, between two `#` |
| PrettyPrinting.Blank | pretty_print.py:34 | the spacer row, a centred `' '` |
| PrettyPrinting.DashLine | pretty_print.py:43-44 | the dashed row, a `-` centred with `-` padding |
| PrettyPrinting.RowsArePadding | pretty_print.py:37-46 | the blank and dashed rows are all spaces or all dashes between two `#` |
| PrettyPrinting.BoxedWidth | pretty_print.py:33-35 | a row whose string fits the field is as wide as the border |
| PrettyPrinting.LinesAt | pretty_print.py:31-48 | the lines one iteration of the loop prints, by the three branches on the index |
| PrettyPrinting.Render | pretty_print.py:31-48 | the lines the loop has printed after its first k iterations; the Render lemmas below state their layout |
| PrettyPrinting.HeaderBlock | pretty_print.py:20-48 | the lines `_fancy_header_main` prints for a list, or `ValueError` from `max` on an empty list; HeaderLineCount, HeaderFrame and HeaderWidth state its shape |
| PrettyPrinting.RenderGrows | pretty_print.py:31-48 | later iterations only add lines |
| PrettyPrinting.RenderOpening | pretty_print.py:31-47 | the first two iterations print the border, the first string between spacers, the dashed line, a spacer and the second string |
| PrettyPrinting.RenderMiddle | pretty_print.py:41-48 | a middle iteration prints a spacer, except at index 3, then its string |
| PrettyPrinting.RenderClosing | pretty_print.py:38-40 | the last iteration prints a spacer and the bottom border, never the sentinel itself |
| PrettyPrinting.RenderPrefixLength | pretty_print.py:31-48 | the number of lines printed before the last iteration |
| PrettyPrinting.RenderWidth | pretty_print.py:31-48 | every line is `longest + 4` wide when every string fits the field |
| PrettyPrinting.HeaderLineCount | pretty_print.py:20-48 | a box of n strings has 2n+3 lines, one fewer from five strings on |
| PrettyPrinting.HeaderFrame | pretty_print.py:31-48 | the opening seven lines and the closing two lines of every box |
| PrettyPrinting.NoSpacerAtThree | pretty_print.py:45-48 | the string at index 3 directly follows the one at index 2 |
| PrettyPrinting.RenderFourOfMore | pretty_print.py:41-48 | with five or more strings, the fourth iteration prints its string without a spacer |
| PrettyPrinting.HeaderWidth | pretty_print.py:24-48 | every line of the box is `longest + 4` wide, provided `'Unfiltered'` fits |
| PrettyPrinting.RenderThree | pretty_print.py:31-48 | the nine lines of a box of three strings |
| PrettyPrinting.RenderFour | pretty_print.py:31-48 | the eleven lines of a box of four strings |
| PrettyPrinting.RenderFive | pretty_print.py:31-48 | the twelve lines of a box of five strings |
| PrettyPrinting.UnfilteredHeader | pretty_print.py:56-73 | without a mode the header is nine lines, with "Unfiltered" below the dashed line |
| PrettyPrinting.MonthHeader | pretty_print.py:56-73 | filtered by month, the header is eleven lines |
| PrettyPrinting.DayHeader | pretty_print.py:56-73 | filtered by day, the header is twelve lines, with the day line right after the month line |
| PrettyPrinting.MainHeaderWidth | pretty_print.py:56-73 | every line of the main header is as wide as its border |
| PrettyPrinting.StringList.Append | pretty_print.py:27-28 | `append` adds one string at the end |
| PrettyPrinting.PrettyPrint.constructor | pretty_print.py:12-18 | the city, mode and filter start as `None` |
| PrettyPrinting.PrettyPrint.FancyHeaderMain | pretty_print.py:20-48 | the printed lines are the box of the list as it was passed in; the caller's list is left extended; an empty list fails with `ValueError` |
| PrettyPrinting.PrettyPrint.PrintLines | pretty_print.py:31-48 | the loop prints exactly the box of the extended list, iteration by iteration |
| PrettyPrinting.PrettyPrint.MainHeader | pretty_print.py:56-73 | the box around the strings built from the stored options, or the unpacking error |
| PrettyPrinting.PrettyPrint.GetFilterOptions | pretty_print.py:75-82 | stores the three options as given |
| Text.IsCsvFile | csv_data.py:31 | a directory entry is a data file when its name ends in `.csv`, as CsvData.py:28 tests it too |
| Text.EndsWith | csv_data.py:31 | `endswith`: the last characters of the string are the suffix |
| Text.Lower | validate.py:37 | `lower()` keeps the length |
| Text.LowerAt | validate.py:37 | `lower()` maps each character on its own |
| Text.LowerEach | validate.py:37 | `lower()`, stated character by character |
| Text.LowerIdempotent | validate.py:37 | lower-casing twice is lower-casing once |
| Text.LowerPrefix | validate.py:77-78 | lower-casing commutes with slicing `[:n]` |
| Text.Prefix | validate.py:77 | `s[:n]` has length `min(len(s), n)` and is a prefix of `s` |
| Text.TitleFrom | csv_data.py:32 | title-casing keeps the length |
| Text.Title | csv_data.py:32 | `title()` keeps the length |
| Text.TitleFromAt | csv_data.py:32 | each character of the title case depends only on itself and on whether the previous one is a letter |
| Text.TitleAt | csv_data.py:32 | `title()` agrees with the per-character reference definition |
| Text.TitleEach | csv_data.py:32 | `title()`, stated character by character |
| Text.TitleKeepsLower | csv_data.py:32 | `title()` changes only the case of letters |
| Text.TitleCaseBlind | csv_data.py:32 | `title()` gives the same result for two strings with the same lower case |
| Text.TitleIdempotent | csv_data.py:32 | a title-cased string is its own title case |
| Text.IsPrefixMeans | validate.py:40 | the character-by-character prefix test used by `replace` is Dafny's prefix relation |
| Text.Replace | validate.py:40 | `str.replace`: every occurrence of the pattern, left to right and without overlap, is replaced; the Replace lemmas below state what it does |
| Text.ReplaceCharAt | csv_data.py:32 | replacing one character by another keeps the length and maps each character on its own |
| Text.ReplaceEach | csv_data.py:32 | one-character replacement, stated character by character |
| Text.ReplaceAbsent | validate.py:40 | where the pattern never occurs, `replace` changes nothing |
| Text.ReplaceWithoutHead | validate.py:40 | a string without the pattern's first character is left unchanged |
| Text.ReplaceKeepsHead | validate.py:40 | a leading character that does not start the pattern is copied |
| Text.ReplaceSkipsPlain | validate.py:40 | a leading part without the pattern's first character is copied |
| Text.ReplaceAtEnd | validate.py:40 | a pattern at the end of a string without its first character is the only occurrence replaced |
| Text.ReplaceWordsAtEnd | validate.py:40 | in two words joined by the pattern's first character and followed by the pattern, only the final pattern is replaced |
| Text.Repeat | pretty_print.py:33 | `c * n` has n characters |
| Text.Centre | pretty_print.py:34-36 | the centred field is as wide as the field, or as the string when that is wider |
| Text.CentreLayout | pretty_print.py:34-36 | the string sits after the left padding; the right padding is as wide as the left or one wider |
| Text.CentreFill | pretty_print.py:43-44 | centring a padding character gives a field of padding only |

## Left out

- Console I/O (`input`, `print`), `os.listdir` and `pd.read_csv` are not modelled. Input lines, the directory listing and the CSV reader are parameters. The header is returned as its lines instead of being printed.
- The prompt loops in validate.py repeat forever on bad input. The model reads a finite sequence of lines and returns `Reject` when all of them are rejected.
- `calendar.month_name` and `calendar.day_name` are written out as English constants. The locale is not modelled.
- Strings are ASCII for `lower()` and `title()`. Unicode case mapping is not modelled.
- Date parsing (`parse_dates`) and the columns other than the two stations are not modelled. A dataframe is a sequence of rows with their `Trip` value. Missing (NaN) station values are not modelled.
- The statistics code is not modelled because it is empty in the source: `DataStats` in data_stats.py, `_fancy_header_stat_group` and `show_start_time_stats` in pretty_print.py, and the `show_data` body in CsvData.py.
- bikeshare.py is not part of this model. It is a small script that builds the list-based `CsvData` of CsvData.py and prints its file names (bikeshare.py:7-17).
- bikeshare_functions.py is not part of this model. It is glue code that calls `DataStats` and `PrettyPrint` methods no class in the repository defines, such as `filter_data`, `popular_start_time` and `counts_user` (bikeshare_functions.py:21-30) and `show_stations_stats` through `show_birth_year_stats` (bikeshare_functions.py:57-62).
- PrettyPrinting.PrettyPrint: `_filter_by` holds what `get_filter_components` returns: `None`, a month name, or `[month, day]`. Other Python objects are not modelled.
- PrettyPrinting.ShowComponents: the `repr` of `[month, day]` assumes names without quotes or backslashes, which holds for the calendar names.
- ValidationFacts.NewYorkCity is stated for the "New York City" candidate alone. Which city a whole list chooses follows from Validation.MatchName's first-match contract.
- ValidationFacts.MatchNameIff is stated for the month and day variant tables only. City matching uses Validation.MatchName's first-match contract instead.
- PrettyPrinting.HeaderWidth requires that `'Unfiltered'` fits the field when it is added. The main header always meets this (PrettyPrinting.MainHeaderWidth), because its title is at least fifteen characters long.
