/** CsvData.py: the older `CsvData` class, which keeps the names of the
    `.csv` files of a directory listing in a list. */
module CsvDataList {
  import opened Outcomes
  import opened Text

  /** What one entry contributes to the list. */
  function Keep(f: string): seq<string> {
    if IsCsvFile(f) then [f] else []
  }

  /** The `.csv` entries of a listing, verbatim and in listing order. */
  function CsvOnly(listing: seq<string>): (r: seq<string>)
    ensures |r| <= |listing|
  {
    if listing == [] then [] else Keep(listing[0]) + CsvOnly(listing[1..])
  }

  /** Filtering a listing in two parts is filtering each part. */
  lemma {:induction false} CsvOnlyAppend(a: seq<string>, b: seq<string>)
    ensures CsvOnly(a + b) == CsvOnly(a) + CsvOnly(b)
  {
    if a == [] {
      assert a + b == b;
    } else {
      calc {
        CsvOnly(a + b);
        { assert (a + b)[0] == a[0] && (a + b)[1..] == a[1..] + b; }
        Keep(a[0]) + CsvOnly(a[1..] + b);
        { CsvOnlyAppend(a[1..], b); }
        Keep(a[0]) + (CsvOnly(a[1..]) + CsvOnly(b));
      }
    }
  }

  /** Exactly the entries ending in `.csv` are kept. */
  lemma {:induction false} CsvOnlyMembers(listing: seq<string>, f: string)
    ensures f in CsvOnly(listing) <==> f in listing && IsCsvFile(f)
  {
    if listing != [] {
      CsvOnlyMembers(listing[1..], f);
      assert listing == [listing[0]] + listing[1..];
    }
  }

  /** `sub` is `s` with some entries left out, the rest in their order. */
  predicate IsSubsequence(sub: seq<string>, s: seq<string>)
    decreases |s|
  {
    if sub == [] then true
    else if s == [] then false
    else if sub[0] == s[0] then IsSubsequence(sub[1..], s[1..])
    else IsSubsequence(sub, s[1..])
  }

  /** The kept entries are a subsequence of the listing. */
  lemma {:induction false} CsvOnlySubsequence(listing: seq<string>)
    ensures IsSubsequence(CsvOnly(listing), listing)
  {
    if listing != [] {
      CsvOnlySubsequence(listing[1..]);
      var rest := CsvOnly(listing[1..]);
      if IsCsvFile(listing[0]) {
        assert CsvOnly(listing) == [listing[0]] + rest;
        assert CsvOnly(listing)[1..] == rest;
      } else {
        assert CsvOnly(listing) == rest;
        if rest != [] {
          assert rest[0] in rest;
          CsvOnlyMembers(listing[1..], rest[0]);
          assert rest[0] != listing[0];
        }
      }
    }
  }

  class CsvData {
    /** `_filenames` */
    var filenames: seq<string>
    /** `_csv_files_available` */
    var csvFilesAvailable: bool

    ghost predicate Valid()
      reads this
    {
      csvFilesAvailable <==> filenames != []
    }

    /** `__init__`: an empty list, then one scan of the listing. */
    constructor (listing: seq<string>)
      ensures Valid()
      ensures filenames == CsvOnly(listing)
    {
      filenames := [];
      csvFilesAvailable := true;
      new;
      GetFilenames(listing);
    }

    /** `_get_filenames`: appends the `.csv` entries of the listing. */
    method GetFilenames(listing: seq<string>)
      modifies this
      ensures Valid()
      ensures filenames == old(filenames) + CsvOnly(listing)
    {
      var i := 0;
      while i < |listing|
        invariant 0 <= i <= |listing|
        invariant filenames == old(filenames) + CsvOnly(listing[..i])
      {
        var csvFile := listing[i];
        assert listing[..i + 1] == listing[..i] + [csvFile];
        CsvOnlyAppend(listing[..i], [csvFile]);
        if EndsWith(csvFile, ".csv") {
          filenames := filenames + [csvFile];
        }
        i := i + 1;
      }
      assert listing[..i] == listing;
      if |filenames| == 0 {
        csvFilesAvailable := false;
      } else {
        csvFilesAvailable := true;
      }
    }

    /** `csv_files_available`: false exactly when no file is known. */
    function CsvFilesAvailable(): (r: bool)
      reads this
      requires Valid()
      ensures !r <==> |filenames| == 0
    {
      csvFilesAvailable
    }

    /** `show_data` is a stub: it returns `None` and changes nothing. */
    method ShowData(city: string, filterMode: Option<string>, filterBy: Option<string>) returns (r: Option<string>)
      ensures r == None
    {
      r := None;
    }
  }
}
