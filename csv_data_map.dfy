/** csv_data.py: the `CsvData` class that registers the `.csv` files of a
    directory listing under a city key and loads them. The listing is a
    sequence of file names and the CSV reader a function from a file name to
    its rows. */
module CsvDataMap {
  import opened Outcomes
  import opened Text

  // ---------------------------------------------------------------------
  // City keys
  // ---------------------------------------------------------------------

  /** `f[:-4].replace("_", " ").title()`: the city a data file is for. */
  function FileKey(f: string): string
    requires IsCsvFile(f)
  {
    Title(Replace(f[..|f| - 4], "_", " "))
  }

  /** The key has one character per character of the name without its
      `.csv`: an underscore becomes a space, and a letter is upper-cased when
      it starts a word and lower-cased otherwise. */
  lemma FileKeyAt(f: string, i: nat)
    requires IsCsvFile(f) && i < |f| - 4
    ensures |FileKey(f)| == |f| - 4
    ensures FileKey(f)[i] == if f[i] == '_' then ' ' else TitleCharAt(f[..|f| - 4], i)
  {
    var stem := f[..|f| - 4];
    var spaced := Replace(stem, "_", " ");
    ReplaceCharAt(stem, '_', ' ', i);
    TitleAt(spaced, i);
    if i > 0 {
      ReplaceCharAt(stem, '_', ' ', i - 1);
    }
  }

  /** The key differs from the stem with spaces for underscores only in
      letter case. */
  lemma FileKeyCaseBlind(f: string)
    requires IsCsvFile(f)
    ensures Lower(FileKey(f)) == Lower(Replace(f[..|f| - 4], "_", " "))
  {
    TitleKeepsLower(Replace(f[..|f| - 4], "_", " "));
  }

  /** Two file names whose stems, with spaces for underscores, differ only
      in letter case get the same key: `FileKey` is not injective, so a later
      file can overwrite an earlier one (`Chicago.csv` and `chicago.csv`,
      or `new_york.csv` and `New York.csv`). */
  lemma FileKeySameUpToCase(f: string, g: string)
    requires IsCsvFile(f) && IsCsvFile(g)
    requires Lower(Replace(f[..|f| - 4], "_", " ")) == Lower(Replace(g[..|g| - 4], "_", " "))
    ensures FileKey(f) == FileKey(g)
  {
    TitleCaseBlind(Replace(f[..|f| - 4], "_", " "), Replace(g[..|g| - 4], "_", " "));
  }

  /** In particular, stems that differ only in letter case share a key. */
  lemma FileKeyStemCaseBlind(f: string, g: string)
    requires IsCsvFile(f) && IsCsvFile(g)
    requires Lower(f[..|f| - 4]) == Lower(g[..|g| - 4])
    ensures FileKey(f) == FileKey(g)
  {
    var sf, sg := f[..|f| - 4], g[..|g| - 4];
    assert "_" == ['_'] && " " == [' '];
    if sf != [] {
      ReplaceCharAt(sf, '_', ' ', 0);
      ReplaceCharAt(sg, '_', ' ', 0);
    }
    forall i | 0 <= i < |sf|
      ensures Lower(Replace(sf, "_", " "))[i] == Lower(Replace(sg, "_", " "))[i]
    {
      LowerAt(sf, i);
      LowerAt(sg, i);
      ReplaceCharAt(sf, '_', ' ', i);
      ReplaceCharAt(sg, '_', ' ', i);
      LowerAt(Replace(sf, "_", " "), i);
      LowerAt(Replace(sg, "_", " "), i);
    }
    FileKeySameUpToCase(f, g);
  }

  lemma NewYorkSpaced()
    ensures Replace("new_york_city", "_", " ") == "new york city"
  {
    ReplaceEach("new_york_city", '_', ' ', "new york city");
  }

  lemma NewYorkTitled()
    ensures Title("new york city") == "New York City"
  {
    TitleEach("new york city", "New York City");
  }

  /** The New York data file is registered as "New York City". */
  lemma NewYorkFileKey()
    ensures FileKey("new_york_city.csv") == "New York City"
  {
    assert "new_york_city.csv"[..13] == "new_york_city";
    NewYorkSpaced();
    NewYorkTitled();
  }

  // ---------------------------------------------------------------------
  // A Python dict of file names
  // ---------------------------------------------------------------------

  /** A Python `dict` with string keys: the keys in insertion order and the
      mapping itself. */
  datatype Dict<V> = Dict(keys: seq<string>, entries: map<string, V>)

  /** The keys are listed once each, and exactly the mapped keys are listed. */
  ghost predicate WellFormed<V>(d: Dict<V>) {
    && (forall i, j :: 0 <= i < j < |d.keys| ==> d.keys[i] != d.keys[j])
    && (forall k :: k in d.entries <==> k in d.keys)
  }

  /** `d[k] = v`: a new key goes to the end, an existing key keeps its place
      and takes the new value. */
  function Put<V>(d: Dict<V>, k: string, v: V): (r: Dict<V>)
    ensures WellFormed(d) ==> WellFormed(r)
    ensures r.entries == d.entries[k := v]
    ensures k in d.entries ==> r.keys == d.keys
    ensures k !in d.entries ==> r.keys == d.keys + [k]
  {
    if k in d.entries then Dict(d.keys, d.entries[k := v])
    else Dict(d.keys + [k], d.entries[k := v])
  }

  /** Every file is registered under its own key. */
  ghost predicate Registered(d: Dict<string>) {
    forall k :: k in d.entries ==> IsCsvFile(d.entries[k]) && FileKey(d.entries[k]) == k
  }

  /** What the loop of `get_filenames` leaves in `_filenames`, starting from
      `d`, after visiting the entries of `listing` in order. */
  function Scan(d: Dict<string>, listing: seq<string>): Dict<string>
    decreases |listing|
  {
    if listing == [] then d
    else
      var rest := Scan(d, listing[..|listing| - 1]);
      var f := listing[|listing| - 1];
      if IsCsvFile(f) then Put(rest, FileKey(f), f) else rest
  }

  /** A listing without a `.csv` entry leaves the dict as it was: the dict
      is never cleared, so earlier entries, and the flag, survive. */
  lemma {:induction false} ScanWithoutCsv(d: Dict<string>, listing: seq<string>)
    requires forall i :: 0 <= i < |listing| ==> !IsCsvFile(listing[i])
    ensures Scan(d, listing) == d
    decreases |listing|
  {
    if listing != [] {
      ScanWithoutCsv(d, listing[..|listing| - 1]);
    }
  }

  lemma {:induction false} ScanWellFormed(d: Dict<string>, listing: seq<string>)
    requires WellFormed(d) && Registered(d)
    ensures WellFormed(Scan(d, listing)) && Registered(Scan(d, listing))
    decreases |listing|
  {
    if listing != [] {
      ScanWellFormed(d, listing[..|listing| - 1]);
    }
  }

  /** A key is registered after a scan exactly when it was before, or some
      `.csv` entry of the listing yields it. */
  lemma {:induction false} ScanKeys(d: Dict<string>, listing: seq<string>, k: string)
    ensures k in Scan(d, listing).entries <==>
      k in d.entries || exists i :: 0 <= i < |listing| && IsCsvFile(listing[i]) && FileKey(listing[i]) == k
    decreases |listing|
  {
    if listing != [] {
      var init := listing[..|listing| - 1];
      ScanKeys(d, init, k);
      assert forall i :: 0 <= i < |init| ==> init[i] == listing[i];
    }
  }

  /** Of the entries with the same key, the last in listing order wins. */
  lemma {:induction false} ScanLastWins(d: Dict<string>, listing: seq<string>, i: nat)
    requires i < |listing| && IsCsvFile(listing[i])
    requires forall j :: i < j < |listing| && IsCsvFile(listing[j]) ==> FileKey(listing[j]) != FileKey(listing[i])
    ensures FileKey(listing[i]) in Scan(d, listing).entries
    ensures Scan(d, listing).entries[FileKey(listing[i])] == listing[i]
    decreases |listing|
  {
    if i < |listing| - 1 {
      var init := listing[..|listing| - 1];
      assert init[i] == listing[i];
      ScanLastWins(d, init, i);
    }
  }

  /** A key that no entry of the listing yields keeps its old value: `_filenames`
      is never cleared, so a rescan only adds or overwrites. */
  lemma {:induction false} ScanKeepsOthers(d: Dict<string>, listing: seq<string>, k: string)
    requires k in d.entries
    requires forall j :: 0 <= j < |listing| && IsCsvFile(listing[j]) ==> FileKey(listing[j]) != k
    ensures k in Scan(d, listing).entries && Scan(d, listing).entries[k] == d.entries[k]
    decreases |listing|
  {
    if listing != [] {
      ScanKeepsOthers(d, listing[..|listing| - 1], k);
    }
  }

  /** The keys already present keep their order, at the front. */
  lemma {:induction false} ScanKeepsOrder(d: Dict<string>, listing: seq<string>)
    ensures d.keys <= Scan(d, listing).keys
    decreases |listing|
  {
    if listing != [] {
      ScanKeepsOrder(d, listing[..|listing| - 1]);
    }
  }

  /** Every value stored by a scan is a listing entry, kept verbatim. */
  lemma {:induction false} ScanValues(d: Dict<string>, listing: seq<string>, k: string)
    requires k in Scan(d, listing).entries
    ensures var v := Scan(d, listing).entries[k];
      (k in d.entries && v == d.entries[k]) || (v in listing && IsCsvFile(v) && FileKey(v) == k)
    decreases |listing|
  {
    if listing != [] {
      var init := listing[..|listing| - 1];
      var f := listing[|listing| - 1];
      if !(IsCsvFile(f) && FileKey(f) == k) {
        ScanValues(d, init, k);
      }
    }
  }

  // ---------------------------------------------------------------------
  // Trip data
  // ---------------------------------------------------------------------

  /** The columns of a CSV row that the core uses. */
  datatype RawTrip = RawTrip(startStation: string, endStation: string)

  /** A row of the dataframe, with the `Trip` column added. */
  datatype Trip = Trip(startStation: string, endStation: string, trip: string)

  /** `start + "_" + end`, the `Trip` column. */
  function TripName(start: string, end: string): (r: string)
    ensures |r| == |start| + 1 + |end|
    ensures r[..|start|] == start && r[|start|] == '_' && r[|start| + 1..] == end
  {
    start + "_" + end
  }

  /** The reference inverse of `TripName`, used by the round-trip lemma
      below (the source never splits a trip name): the text before the first
      underscore and the text after it, or `None` when there is none. */
  function SplitTrip(t: string): Option<(string, string)> {
    if t == [] then None
    else if t[0] == '_' then Some(([], t[1..]))
    else
      match SplitTrip(t[1..])
      case None => None
      case Some((a, b)) => Some(([t[0]] + a, b))
  }

  /** A trip name splits back into its stations when the start station
      holds no underscore. */
  lemma {:induction false} TripRoundTrip(start: string, end: string)
    requires '_' !in start
    ensures SplitTrip(TripName(start, end)) == Some((start, end))
  {
    var t := TripName(start, end);
    if start == [] {
      assert t == "_" + end;
    } else {
      assert t[0] == start[0] && t[1..] == TripName(start[1..], end);
      TripRoundTrip(start[1..], end);
      assert [start[0]] + start[1..] == start;
    }
  }

  /** Station names that hold an underscore make trip names ambiguous: two
      different station pairs share a name, and splitting gives back only
      one of them. */
  lemma TripAmbiguous()
    ensures TripName("A_B", "C") == TripName("A", "B_C")
    ensures SplitTrip(TripName("A_B", "C")) == Some(("A", "B_C"))
  {
    TripRoundTrip("A", "B_C");
  }

  /** `_convert_to_dataframe`: the rows `read` returns for the file, each
      with its `Trip`. */
  function ConvertToDataframe(csvFile: string, read: string -> seq<RawTrip>): (r: seq<Trip>)
    ensures |r| == |read(csvFile)|
    ensures forall i :: 0 <= i < |r| ==>
      && r[i].startStation == read(csvFile)[i].startStation
      && r[i].endStation == read(csvFile)[i].endStation
      && r[i].trip == TripName(r[i].startStation, r[i].endStation)
  {
    var rows := read(csvFile);
    seq(|rows|, i requires 0 <= i < |rows| =>
      Trip(rows[i].startStation, rows[i].endStation, TripName(rows[i].startStation, rows[i].endStation)))
  }

  /** What `get_data` returns: one city's dataframe, or a dict of all. */
  datatype CityData = OneCity(frame: seq<Trip>) | AllCities(frames: Dict<seq<Trip>>)

  /** The loop of `get_data` without a city: every file of `files` is
      converted, in key order, into a dict with the same keys. */
  method ConvertAll(files: Dict<string>, read: string -> seq<RawTrip>) returns (all: Dict<seq<Trip>>)
    requires WellFormed(files)
    ensures all.keys == files.keys
    ensures WellFormed(all)
    ensures forall k :: k in all.entries ==> k in files.entries && all.entries[k] == ConvertToDataframe(files.entries[k], read)
  {
    all := Dict([], map[]);
    var i := 0;
    while i < |files.keys|
      invariant 0 <= i <= |files.keys|
      invariant all.keys == files.keys[..i]
      invariant WellFormed(all)
      invariant forall k :: k in all.entries ==>
        k in files.entries && all.entries[k] == ConvertToDataframe(files.entries[k], read)
    {
      var cityName := files.keys[i];
      var cityFile := files.entries[cityName];
      assert cityName !in files.keys[..i];
      all := Put(all, cityName, ConvertToDataframe(cityFile, read));
      i := i + 1;
    }
    assert files.keys[..i] == files.keys;
  }

  class CsvData {
    /** `_filenames`: city key to file name. */
    var filenames: Dict<string>
    /** `_csv_files_available` */
    var csvFilesAvailable: bool

    ghost predicate Valid()
      reads this
    {
      && WellFormed(filenames)
      && Registered(filenames)
      && (csvFilesAvailable <==> |filenames.keys| > 0)
    }

    /** `__init__`: an empty dict, then one scan of the listing. */
    constructor (listing: seq<string>)
      ensures Valid()
      ensures filenames == Scan(Dict([], map[]), listing)
    {
      filenames := Dict([], map[]);
      csvFilesAvailable := true;
      new;
      GetFilenames(listing);
    }

    /** `get_filenames` */
    method GetFilenames(listing: seq<string>)
      requires WellFormed(filenames) && Registered(filenames)
      modifies this
      ensures Valid()
      ensures filenames == Scan(old(filenames), listing)
    {
      var i := 0;
      while i < |listing|
        invariant 0 <= i <= |listing|
        invariant filenames == Scan(old(filenames), listing[..i])
      {
        var f := listing[i];
        assert listing[..i + 1][..i] == listing[..i];
        if EndsWith(f, ".csv") {
          var key := FileKey(f);
          filenames := Put(filenames, key, f);
        }
        i := i + 1;
      }
      assert listing[..i] == listing;
      ScanWellFormed(old(filenames), listing);
      if |filenames.keys| == 0 {
        csvFilesAvailable := false;
      } else {
        csvFilesAvailable := true;
      }
    }

    /** `csv_files_available`: whether the last scan left any file known. */
    function CsvFilesAvailable(): (r: bool)
      reads this
      requires Valid()
      ensures r <==> exists k :: k in filenames.entries
    {
      assert |filenames.keys| > 0 ==> filenames.keys[0] in filenames.entries;
      csvFilesAvailable
    }

    /** `get_city_names`: the keys, each once, in insertion order. */
    function GetCityNames(): (r: seq<string>)
      reads this
      requires Valid()
      ensures forall k :: k in r <==> k in filenames.entries
      ensures forall i, j :: 0 <= i < j < |r| ==> r[i] != r[j]
    {
      filenames.keys
    }

    /** `get_data`: a truthy city loads the file registered under that key
        (a `KeyError` when there is none); no city, or a falsy one, loads
        every registered file into a dict with the same keys in the same
        order. */
    method GetData(city: Option<string>, read: string -> seq<RawTrip>) returns (r: Result<CityData>)
      requires Valid()
      ensures Truthy(city) && city.value !in filenames.entries ==> r == Err(KeyError(city.value))
      ensures Truthy(city) && city.value in filenames.entries ==>
        r == Ok(OneCity(ConvertToDataframe(filenames.entries[city.value], read)))
      ensures !Truthy(city) ==> r.Ok? && r.value.AllCities?
      ensures !Truthy(city) ==> var all := r.value.frames;
        && all.keys == filenames.keys
        && WellFormed(all)
        && forall k :: k in all.entries ==> all.entries[k] == ConvertToDataframe(filenames.entries[k], read)
    {
      if Truthy(city) {
        if city.value !in filenames.entries {
          return Err(KeyError(city.value));
        }
        var cityFile := filenames.entries[city.value];
        return Ok(OneCity(ConvertToDataframe(cityFile, read)));
      }
      var all := ConvertAll(filenames, read);
      return Ok(AllCities(all));
    }
  }
}
