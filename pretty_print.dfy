/** pretty_print.py: the `PrettyPrint` class, which keeps the filter options
    and draws the main header as a box of `#` around the option lines. The
    header is returned as its sequence of printed lines. */
module PrettyPrinting {
  import opened Outcomes
  import opened Text
  import opened Validation

  // ---------------------------------------------------------------------
  // The strings of the main header
  // ---------------------------------------------------------------------

  /** `'Statistics for {}'.format(city_name)` */
  function TitleLine(city: Option<string>): string {
    "Statistics for " + ShowOption(city)
  }

  /** `month, day = filter_by`: a list of two unpacks into its items and a
      string of two characters into its characters; `None` cannot be
      unpacked, and anything of another length raises `ValueError`. */
  function UnpackPair(filterBy: Components): Result<(string, string)> {
    match filterBy
    case NoComponents => Err(TypeError)
    case MonthOnly(s) => if |s| == 2 then Ok(([s[0]], [s[1]])) else Err(ValueError)
    case MonthAndDay(m, d) => Ok((m, d))
  }

  /** `'{}'.format(filter_by)`: `None`, the string itself, or the list's
      `repr`. */
  function ShowComponents(filterBy: Components): string {
    match filterBy
    case NoComponents => "None"
    case MonthOnly(s) => s
    case MonthAndDay(m, d) => "['" + m + "', '" + d + "']"
  }

  /** The list `main_header` hands to `_fancy_header_main`, or the exception
      raised while building it. */
  function HeaderStrings(city: Option<string>, mode: Option<string>, filterBy: Components): Result<seq<string>> {
    var title := TitleLine(city);
    if !Truthy(mode) then Ok([title])
    else if mode == Some("d") then
      match UnpackPair(filterBy)
      case Err(e) => Err(e)
      case Ok((month, day)) => Ok([title, "Filtered by", "Month: " + month, "Day: " + day])
    else Ok([title, "Filtered by", "Month: " + ShowComponents(filterBy)])
  }

  /** The title always comes first. Without a mode it is alone; mode `'d'`
      adds a month line and a day line after "Filtered by", and any other
      truthy mode one month line. Building the list fails only in mode `'d'`,
      when `filter_by` is not a pair. */
  lemma HeaderStringsShape(city: Option<string>, mode: Option<string>, filterBy: Components)
    ensures var r := HeaderStrings(city, mode, filterBy);
      && (r.Err? <==> mode == Some("d") && UnpackPair(filterBy).Err?)
      && (r.Ok? ==> |r.value| > 0 && r.value[0] == TitleLine(city))
      && (r.Ok? ==> (|r.value| == 1 <==> !Truthy(mode)))
      && (r.Ok? ==> (|r.value| == 4 <==> mode == Some("d")))
      && (r.Ok? && |r.value| > 1 ==> r.value[1] == "Filtered by")
      && (r.Ok? && Truthy(mode) && mode != Some("d") ==> |r.value| == 3)
      && (r.Ok? && Truthy(mode) && mode != Some("d") ==> r.value[2] == "Month: " + ShowComponents(filterBy))
      && (mode == Some("d") && filterBy.MonthAndDay? ==>
            r == Ok([TitleLine(city), "Filtered by", "Month: " + filterBy.month, "Day: " + filterBy.day]))
  {
  }

  /** `month, day = filter_by` fails exactly on `None` and on anything whose
      length is not two. */
  lemma UnpackPairFails(filterBy: Components)
    ensures UnpackPair(filterBy) == Err(TypeError) <==> filterBy.NoComponents?
    ensures UnpackPair(filterBy) == Err(ValueError) <==> filterBy.MonthOnly? && |filterBy.month| != 2
  {
  }

  // ---------------------------------------------------------------------
  // The box drawn by `_fancy_header_main`
  // ---------------------------------------------------------------------

  /** `max([len(string) for string in header_strings])` */
  function Longest(ss: seq<string>): (r: nat)
    requires |ss| > 0
    ensures forall i :: 0 <= i < |ss| ==> |ss[i]| <= r
    ensures exists i :: 0 <= i < |ss| && |ss[i]| == r
  {
    if |ss| == 1 then |ss[0]|
    else
      var rest := Longest(ss[1..]);
      assert forall i :: 1 <= i < |ss| ==> ss[i] == ss[1..][i - 1];
      if |ss[0]| >= rest then |ss[0]| else rest
  }

  /** The list after the appends: `'Unfiltered'` when it held one string,
      then the `' '` sentinel. */
  function Extended(ss: seq<string>): (r: seq<string>)
    requires ss != []
    ensures |r| >= 3 && |r| > |ss|
    ensures forall i :: 0 <= i < |ss| ==> r[i] == ss[i]
  {
    if |ss| == 1 then ss + ["Unfiltered", " "] else ss + [" "]
  }

  /** `'#' * (longest_string + 4)` */
  function Border(w: nat): string {
    Repeat('#', w + 4)
  }

  /** `'#{s:^{fill}}#'.format(s=s, fill=longest_string+2)` */
  function Boxed(s: string, w: nat): string {
    "#" + Centre(s, w + 2, ' ') + "#"
  }

  /** The blank row: a centred `' '`. */
  function Blank(w: nat): string {
    Boxed(" ", w)
  }

  /** `'#{s:-^{fill}}#'.format(s='-', fill=longest_string+2)` */
  function DashLine(w: nat): string {
    "#" + Centre("-", w + 2, '-') + "#"
  }

  /** The blank and the dashed rows are all padding between two `#`. */
  lemma RowsArePadding(w: nat)
    ensures Blank(w) == "#" + Repeat(' ', w + 2) + "#"
    ensures DashLine(w) == "#" + Repeat('-', w + 2) + "#"
  {
    CentreFill(w + 2, ' ');
    CentreFill(w + 2, '-');
  }

  /** A row is as wide as the border whenever its string fits the field. */
  lemma BoxedWidth(s: string, w: nat)
    requires |s| <= w + 2
    ensures |Boxed(s, w)| == w + 4 == |Border(w)|
  {
  }

  /** The lines printed by the iteration for the `i`-th of `n` strings. */
  function LinesAt(i: nat, s: string, n: nat, w: nat): seq<string> {
    if i == 0 then [Border(w), Blank(w), Boxed(s, w), Blank(w)]
    else if i == n - 1 then [Blank(w), Border(w)]
    else
      (if i == 1 then [DashLine(w)] else [])
      + (if i != 3 then [Blank(w)] else [])
      + [Boxed(s, w)]
  }

  /** The lines printed by the first `k` iterations of the loop. */
  function Render(items: seq<string>, w: nat, k: nat): seq<string>
    requires k <= |items|
  {
    if k == 0 then [] else Render(items, w, k - 1) + LinesAt(k - 1, items[k - 1], |items|, w)
  }

  /** What `_fancy_header_main` prints for the list it is given; `max` of an
      empty list raises `ValueError`. */
  function HeaderBlock(ss: seq<string>): Result<seq<string>> {
    if ss == [] then Err(ValueError)
    else
      var items := Extended(ss);
      Ok(Render(items, Longest(ss), |items|))
  }

  /** Later iterations only add lines. */
  lemma {:induction false} RenderGrows(items: seq<string>, w: nat, j: nat, k: nat)
    requires j <= k <= |items|
    ensures Render(items, w, j) <= Render(items, w, k)
    decreases k
  {
    if j < k {
      RenderGrows(items, w, j, k - 1);
    }
  }

  /** The first two iterations print the top border, the first string
      between spacers, the dashed line, a spacer and the second string. */
  lemma RenderOpening(items: seq<string>, w: nat)
    requires |items| >= 3
    ensures Render(items, w, 2) ==
      [Border(w), Blank(w), Boxed(items[0], w), Blank(w), DashLine(w), Blank(w), Boxed(items[1], w)]
  {
    assert Render(items, w, 1) == [Border(w), Blank(w), Boxed(items[0], w), Blank(w)];
  }

  /** A middle iteration past the second prints a spacer, except at index 3,
      and its string. */
  lemma RenderMiddle(items: seq<string>, w: nat, k: nat)
    requires 2 <= k < |items| - 1
    ensures Render(items, w, k + 1) ==
      Render(items, w, k) + (if k != 3 then [Blank(w)] else []) + [Boxed(items[k], w)]
  {
  }

  /** The last iteration prints a spacer and the bottom border only. */
  lemma RenderClosing(items: seq<string>, w: nat)
    requires |items| >= 2
    ensures Render(items, w, |items|) == Render(items, w, |items| - 1) + [Blank(w), Border(w)]
  {
  }

  /** Lines printed before the last iteration: four for the first string,
      then one per string, one blank spacer per string except the one at
      index 3, and the dashed line before the second string. */
  lemma {:induction false} RenderPrefixLength(items: seq<string>, w: nat, k: nat)
    requires 1 <= k < |items|
    ensures |Render(items, w, k)| == 2 * k + 2 + (if k >= 2 then 1 else 0) - (if k >= 4 then 1 else 0)
    decreases k
  {
    if k > 1 {
      RenderPrefixLength(items, w, k - 1);
    }
  }

  /** Every printed line is as wide as the border when every string fits. */
  lemma {:induction false} RenderWidth(items: seq<string>, w: nat, k: nat)
    requires k <= |items|
    requires forall i :: 0 <= i < |items| ==> |items[i]| <= w + 2
    ensures forall i :: 0 <= i < |Render(items, w, k)| ==> |Render(items, w, k)[i]| == w + 4
    decreases k
  {
    if k > 0 {
      RenderWidth(items, w, k - 1);
      BoxedWidth(" ", w);
      BoxedWidth(items[k - 1], w);
      RowsArePadding(w);
    }
  }

  /** The box of `n` strings has `2n + 3` lines, one fewer from five strings
      on, since the string at index 3 gets no spacer. */
  lemma HeaderLineCount(ss: seq<string>)
    requires ss != []
    ensures var n := |Extended(ss)|;
      && n == (if |ss| == 1 then 3 else |ss| + 1)
      && |HeaderBlock(ss).value| == 2 * n + 3 - (if n >= 5 then 1 else 0)
  {
    var items := Extended(ss);
    RenderPrefixLength(items, Longest(ss), |items| - 1);
  }

  /** The box opens with the top border, a spacer, the first string and a
      spacer; the dashed line comes next, then a spacer and the second
      string; it closes with a spacer and the bottom border, so the `' '`
      sentinel is never printed itself. */
  lemma HeaderFrame(ss: seq<string>)
    requires ss != []
    ensures var w := Longest(ss);
      var items := Extended(ss);
      var lines := HeaderBlock(ss).value;
      && |lines| >= 9
      && lines[..7] == [Border(w), Blank(w), Boxed(items[0], w), Blank(w), DashLine(w), Blank(w), Boxed(items[1], w)]
      && lines[|lines| - 2..] == [Blank(w), Border(w)]
  {
    var w := Longest(ss);
    var items := Extended(ss);
    HeaderLineCount(ss);
    RenderGrows(items, w, 2, |items|);
    RenderOpening(items, w);
    RenderClosing(items, w);
  }

  /** With at least four strings, the string at index 3 directly follows the
      one at index 2, with no spacer between them. */
  lemma NoSpacerAtThree(ss: seq<string>)
    requires |ss| >= 4
    ensures var w := Longest(ss);
      var lines := HeaderBlock(ss).value;
      |lines| > 9 && lines[8..10] == [Boxed(ss[2], w), Boxed(ss[3], w)]
  {
    var w := Longest(ss);
    var items := Extended(ss);
    var lines := Render(items, w, |items|);
    assert HeaderBlock(ss) == Ok(lines);
    assert items[2] == ss[2] && items[3] == ss[3];
    RenderFourOfMore(items, w);
    RenderGrows(items, w, 4, |items|);
    SliceOfPrefix(Render(items, w, 4), lines, 8, 10);
  }

  /** A slice inside a prefix is the same slice of the whole sequence. */
  lemma SliceOfPrefix<T>(p: seq<T>, s: seq<T>, i: nat, j: nat)
    requires p <= s && i <= j <= |p|
    ensures s[i..j] == p[i..j]
  {
    assert forall k :: i <= k < j ==> s[k] == p[k];
  }

  /** The first four iterations of a loop over five or more strings. */
  lemma RenderFourOfMore(items: seq<string>, w: nat)
    requires |items| >= 5
    ensures |Render(items, w, 4)| == 10
    ensures Render(items, w, 4)[8..10] == [Boxed(items[2], w), Boxed(items[3], w)]
  {
    RenderOpening(items, w);
    RenderMiddle(items, w, 2);
    RenderMiddle(items, w, 3);
    var open := [Border(w), Blank(w), Boxed(items[0], w), Blank(w), DashLine(w), Blank(w), Boxed(items[1], w)];
    assert Render(items, w, 4) == open + [Blank(w), Boxed(items[2], w)] + [Boxed(items[3], w)];
  }

  /** Every line of the box is `longest + 4` wide, provided `'Unfiltered'`
      fits the field when it is added. */
  lemma HeaderWidth(ss: seq<string>)
    requires ss != []
    requires |ss| == 1 ==> Longest(ss) >= 8
    ensures var lines := HeaderBlock(ss).value;
      forall i :: 0 <= i < |lines| ==> |lines[i]| == Longest(ss) + 4
  {
    var items := Extended(ss);
    var w := Longest(ss);
    forall i | 0 <= i < |items|
      ensures |items[i]| <= w + 2
    {
      if i < |ss| {
        assert items[i] == ss[i];
      }
    }
    RenderWidth(items, w, |items|);
  }

  // ---------------------------------------------------------------------
  // A Python list, changed in place
  // ---------------------------------------------------------------------

  /** The list the caller passes to `_fancy_header_main`, which appends to
      it. */
  class StringList {
    var items: seq<string>

    constructor (items: seq<string>)
      ensures this.items == items
    {
      this.items := items;
    }

    /** `list.append` */
    method Append(s: string)
      modifies this
      ensures items == old(items) + [s]
    {
      items := items + [s];
    }
  }

  class PrettyPrint {
    /** `_city_name`, `_filter_mode` and `_filter_by` */
    var cityName: Option<string>
    var filterMode: Option<string>
    var filterBy: Components

    constructor ()
      ensures cityName == None && filterMode == None && filterBy == NoComponents
    {
      cityName, filterMode, filterBy := None, None, NoComponents;
    }

    /** `_fancy_header_main`: the lines of the box, after the appends to the
        caller's list; with an empty list nothing is appended and `max`
        fails. */
    method FancyHeaderMain(headerStrings: StringList) returns (lines: Result<seq<string>>)
      modifies headerStrings
      ensures lines == HeaderBlock(old(headerStrings.items))
      ensures old(headerStrings.items) == [] ==> headerStrings.items == []
      ensures old(headerStrings.items) != [] ==> headerStrings.items == Extended(old(headerStrings.items))
    {
      if headerStrings.items == [] {
        return Err(ValueError);
      }
      var longestString := Longest(headerStrings.items);
      if |headerStrings.items| == 1 {
        headerStrings.Append("Unfiltered");
      }
      headerStrings.Append(" ");
      var items := headerStrings.items;
      assert items == Extended(old(headerStrings.items));
      var out := PrintLines(items, longestString);
      return Ok(out);
    }

    /** The `for` loop of `_fancy_header_main`: the lines printed for each
        string of the extended list in turn. */
    method PrintLines(items: seq<string>, longestString: nat) returns (out: seq<string>)
      ensures out == Render(items, longestString, |items|)
    {
      var numStrings := |items|;
      out := [];
      for i := 0 to numStrings
        invariant out == Render(items, longestString, i)
      {
        var s := items[i];
        if i == 0 {
          out := out + [Border(longestString), Blank(longestString), Boxed(s, longestString), Blank(longestString)];
        } else if i == numStrings - 1 {
          out := out + [Blank(longestString), Border(longestString)];
        } else {
          if i == 1 {
            out := out + [DashLine(longestString)];
          }
          if i != 3 {
            out := out + [Blank(longestString)];
          }
          out := out + [Boxed(s, longestString)];
        }
      }
    }

    /** `main_header`: the box around the strings built from the stored
        options. */
    method MainHeader() returns (lines: Result<seq<string>>)
      ensures var ss := HeaderStrings(cityName, filterMode, filterBy);
        && (ss.Err? ==> lines == Err(ss.error))
        && (ss.Ok? ==> lines == HeaderBlock(ss.value))
    {
      var ss := HeaderStrings(cityName, filterMode, filterBy);
      if ss.Err? {
        return Err(ss.error);
      }
      var allFilterStr := new StringList(ss.value);
      lines := FancyHeaderMain(allFilterStr);
    }

    /** `get_filter_options` */
    method GetFilterOptions(cityName: Option<string>, filterMode: Option<string>, filterBy: Components)
      modifies this
      ensures this.cityName == cityName && this.filterMode == filterMode && this.filterBy == filterBy
    {
      this.cityName := cityName;
      this.filterMode := filterMode;
      this.filterBy := filterBy;
    }
  }

  // ---------------------------------------------------------------------
  // The three headers the program draws
  // ---------------------------------------------------------------------

  /** The box of three strings (one string and the two appended). */
  lemma RenderThree(items: seq<string>, w: nat)
    requires |items| == 3
    ensures Render(items, w, |items|) == [
      Border(w), Blank(w), Boxed(items[0], w), Blank(w),
      DashLine(w), Blank(w), Boxed(items[1], w),
      Blank(w), Border(w)]
  {
    RenderOpening(items, w);
    RenderClosing(items, w);
  }

  /** The box of four strings. */
  lemma RenderFour(items: seq<string>, w: nat)
    requires |items| == 4
    ensures Render(items, w, |items|) == [
      Border(w), Blank(w), Boxed(items[0], w), Blank(w),
      DashLine(w), Blank(w), Boxed(items[1], w),
      Blank(w), Boxed(items[2], w),
      Blank(w), Border(w)]
  {
    var open := Render(items, w, 2);
    var three := Render(items, w, 3);
    assert open == [Border(w), Blank(w), Boxed(items[0], w), Blank(w), DashLine(w), Blank(w), Boxed(items[1], w)] by {
      RenderOpening(items, w);
    }
    assert three == open + [Blank(w), Boxed(items[2], w)] by {
      RenderMiddle(items, w, 2);
    }
    assert Render(items, w, |items|) == three + [Blank(w), Border(w)] by {
      RenderClosing(items, w);
    }
  }


  /** The box of five strings: no spacer before the string at index 3. */
  lemma RenderFive(items: seq<string>, w: nat)
    requires |items| == 5
    ensures Render(items, w, |items|) == [
      Border(w), Blank(w), Boxed(items[0], w), Blank(w),
      DashLine(w), Blank(w), Boxed(items[1], w),
      Blank(w), Boxed(items[2], w), Boxed(items[3], w),
      Blank(w), Border(w)]
  {
    var open := Render(items, w, 2);
    var three := Render(items, w, 3);
    var four := Render(items, w, 4);
    assert open == [Border(w), Blank(w), Boxed(items[0], w), Blank(w), DashLine(w), Blank(w), Boxed(items[1], w)] by {
      RenderOpening(items, w);
    }
    assert three == open + [Blank(w), Boxed(items[2], w)] by {
      RenderMiddle(items, w, 2);
    }
    assert four == three + [Boxed(items[3], w)] by {
      RenderMiddle(items, w, 3);
    }
    assert Render(items, w, |items|) == four + [Blank(w), Border(w)] by {
      RenderClosing(items, w);
    }
  }


  /** Unfiltered: nine lines, with "Unfiltered" below the dashed line. */
  lemma UnfilteredHeader(city: Option<string>, filterBy: Components)
    ensures var w := |TitleLine(city)|;
      HeaderBlock(HeaderStrings(city, None, filterBy).value) == Ok([
        Border(w), Blank(w), Boxed(TitleLine(city), w), Blank(w),
        DashLine(w), Blank(w), Boxed("Unfiltered", w),
        Blank(w), Border(w)])
  {
    var ss := [TitleLine(city)];
    var items := Extended(ss);
    assert Longest(ss) == |TitleLine(city)|;
    assert items == [TitleLine(city), "Unfiltered", " "];
    RenderThree(items, Longest(ss));
  }

  /** Filtered by month: eleven lines. */
  lemma MonthHeader(city: Option<string>, mode: Option<string>, filterBy: Components)
    requires Truthy(mode) && mode != Some("d")
    ensures var ss := HeaderStrings(city, mode, filterBy).value;
      var w := Longest(ss);
      HeaderBlock(ss) == Ok([
        Border(w), Blank(w), Boxed(TitleLine(city), w), Blank(w),
        DashLine(w), Blank(w), Boxed("Filtered by", w),
        Blank(w), Boxed("Month: " + ShowComponents(filterBy), w),
        Blank(w), Border(w)])
  {
    var ss := HeaderStrings(city, mode, filterBy).value;
    var items := Extended(ss);
    assert items == [TitleLine(city), "Filtered by", "Month: " + ShowComponents(filterBy), " "];
    RenderFour(items, Longest(ss));
  }

  /** Filtered by day: twelve lines; the day line follows the month line
      without a spacer. */
  lemma DayHeader(city: Option<string>, month: string, day: string)
    ensures var ss := HeaderStrings(city, Some("d"), MonthAndDay(month, day)).value;
      var w := Longest(ss);
      HeaderBlock(ss) == Ok([
        Border(w), Blank(w), Boxed(TitleLine(city), w), Blank(w),
        DashLine(w), Blank(w), Boxed("Filtered by", w),
        Blank(w), Boxed("Month: " + month, w), Boxed("Day: " + day, w),
        Blank(w), Border(w)])
  {
    var ss := HeaderStrings(city, Some("d"), MonthAndDay(month, day)).value;
    var items := Extended(ss);
    assert items == [TitleLine(city), "Filtered by", "Month: " + month, "Day: " + day, " "];
    RenderFive(items, Longest(ss));
  }

  /** The main header's title is at least fifteen characters wide, so every
      line of the box is as wide as its border. */
  lemma MainHeaderWidth(city: Option<string>, mode: Option<string>, filterBy: Components)
    requires HeaderStrings(city, mode, filterBy).Ok?
    ensures var ss := HeaderStrings(city, mode, filterBy).value;
      var lines := HeaderBlock(ss).value;
      forall i :: 0 <= i < |lines| ==> |lines[i]| == Longest(ss) + 4
  {
    var ss := HeaderStrings(city, mode, filterBy).value;
    assert |ss[0]| >= 15;
    HeaderWidth(ss);
  }
}
