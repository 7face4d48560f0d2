/** validate.py: the `Validate` class, which reads the user's choices from
    the console and accepts them only when they match a fixed set of
    candidates. Console input is a sequence of lines; each prompt loop takes
    lines until one is accepted and says how many it used. */
module Validation {
  import opened Outcomes
  import opened Text

  /** `calendar.month_name[1:7]`: the first six months only. */
  const MonthNames: seq<string> := ["January", "February", "March", "April", "May", "June"]

  /** `calendar.day_name`, which starts on Monday. */
  const DayNames: seq<string> :=
    ["Monday", "Tuesday", "Wednesday", "Thursday", "Friday", "Saturday", "Sunday"]

  /** What `get_filter_components` returns: `None`, a month name, or the
      list `[month, day]`. */
  datatype Components = NoComponents | MonthOnly(month: string) | MonthAndDay(month: string, day: string)

  /** The values `_filter_mode` takes: `None`, `'m'` or `'d'`. */
  predicate IsModeCode(mode: Option<string>) {
    mode == None || mode == Some("m") || mode == Some("d")
  }

  // ---------------------------------------------------------------------
  // Matching one line against the candidates (the `for` searches)
  // ---------------------------------------------------------------------

  /** Index of the first name the test accepts: a `for` loop that returns
      on its first hit. */
  function FindFirst(names: seq<string>, accepts: string -> bool): (r: Option<nat>)
    ensures r.Some? ==> r.value < |names| && accepts(names[r.value])
    ensures r.Some? ==> forall j :: 0 <= j < r.value ==> !accepts(names[j])
    ensures r.None? ==> forall j :: 0 <= j < |names| ==> !accepts(names[j])
  {
    if names == [] then None
    else if accepts(names[0]) then Some(0)
    else
      match FindFirst(names[1..], accepts)
      case None => None
      case Some(i) => Some(i + 1)
  }

  /** The search inside `get_city_filter`, `_get_month_component` and
      `_get_day_component`: the first candidate, in list order, one of whose
      variants equals the lower-cased input, returned as written in the
      list. */
  function MatchName(user: string, names: seq<string>, variants: string -> seq<string>): (r: Answer<string>)
    ensures r.Accept? ==>
      exists i :: 0 <= i < |names| && r.value == names[i] && Lower(user) in variants(names[i])
        && forall j :: 0 <= j < i ==> Lower(user) !in variants(names[j])
    ensures r.Reject? ==> forall i :: 0 <= i < |names| ==> Lower(user) !in variants(names[i])
  {
    match FindFirst(names, n => Lower(user) in variants(n))
    case None => Reject
    case Some(i) => Accept(names[i])
  }

  function NameParser(names: seq<string>, variants: string -> seq<string>): string -> Answer<string> {
    u => MatchName(u, names, variants)
  }

  /** `city_name.lower().replace(' city', '')`: the form of a candidate city
      that the user's lower-cased input is compared with. */
  function CityKey(name: string): string {
    Replace(Lower(name), " city", "")
  }

  function CityVariants(name: string): seq<string> {
    [CityKey(name)]
  }

  /** The words accepted for a month: its first three letters and its full
      name, lower-cased. */
  function MonthVariants(month: string): seq<string> {
    [Lower(Prefix(month, 3)), Lower(month)]
  }

  /** The words accepted for a weekday: its first three and first four
      letters and its full name, lower-cased. */
  function DayVariants(day: string): seq<string> {
    [Lower(Prefix(day, 3)), Lower(Prefix(day, 4)), Lower(day)]
  }

  /** One pass of `get_filter_mode`: `month`, `day` and `none`, in any case,
      become `'m'`, `'d'` and `None`. */
  function MatchMode(user: string): (r: Answer<Option<string>>)
    ensures r.Accept? ==> IsModeCode(r.value)
  {
    var u := Lower(user);
    if u == "month" then Accept(Some("m"))
    else if u == "day" then Accept(Some("d"))
    else if u == "none" then Accept(None)
    else Reject
  }

  /** The word that selects a filter mode. */
  function ModeWord(mode: Option<string>): string
    requires IsModeCode(mode)
  {
    if mode == Some("m") then "month" else if mode == Some("d") then "day" else "none"
  }

  /** One pass of `quit_program`. */
  function MatchQuit(user: string): Answer<bool> {
    var u := Lower(user);
    if u in ["y", "yes"] then Accept(true)
    else if u in ["n", "no"] then Accept(false)
    else Reject
  }

  // ---------------------------------------------------------------------
  // The prompt loops
  // ---------------------------------------------------------------------

  /** What a `while True` prompt loop returns on the given input lines, and
      how many lines it reads: the answer of the first accepted line; when
      every line is rejected, `Reject` after reading them all. */
  function FirstReply<T>(inputs: seq<string>, parse: string -> Answer<T>): (r: (Answer<T>, nat))
    ensures r.1 <= |inputs|
  {
    if inputs == [] then (Reject, 0)
    else if parse(inputs[0]).Accept? then (parse(inputs[0]), 1)
    else
      var (answer, used) := FirstReply(inputs[1..], parse);
      (answer, used + 1)
  }

  /** An accepted answer is the parse of the last line read. */
  lemma FirstReplyAccepted<T>(inputs: seq<string>, parse: string -> Answer<T>)
    ensures var r := FirstReply(inputs, parse);
      r.0.Accept? ==> 0 < r.1 && parse(inputs[r.1 - 1]) == r.0
  {
    FirstReplyMeans(inputs, parse);
  }

  /** A prompt loop returns the answer of the first line it accepts, after
      rejecting every line before it; when it returns `Reject`, it has read
      and rejected every line. */
  lemma {:induction false} FirstReplyMeans<T>(inputs: seq<string>, parse: string -> Answer<T>)
    ensures var (answer, used) := FirstReply(inputs, parse);
      && (answer.Accept? ==> 0 < used && parse(inputs[used - 1]) == answer)
      && (answer.Accept? ==> forall j :: 0 <= j < used - 1 ==> parse(inputs[j]).Reject?)
      && (answer.Reject? ==> used == |inputs| && forall j :: 0 <= j < |inputs| ==> parse(inputs[j]).Reject?)
  {
    if inputs != [] && parse(inputs[0]).Reject? {
      FirstReplyMeans(inputs[1..], parse);
      assert forall j :: 1 <= j < |inputs| ==> inputs[1..][j - 1] == inputs[j];
    }
  }

  /** Lines that are rejected are read and skipped. */
  lemma {:induction false} FirstReplySkips<T>(inputs: seq<string>, parse: string -> Answer<T>, k: nat)
    requires k <= |inputs|
    requires forall j :: 0 <= j < k ==> parse(inputs[j]).Reject?
    ensures FirstReply(inputs, parse) == (FirstReply(inputs[k..], parse).0, FirstReply(inputs[k..], parse).1 + k)
  {
    if k > 0 {
      assert inputs[1..][k - 1..] == inputs[k..];
      FirstReplySkips(inputs[1..], parse, k - 1);
    }
  }

  /** What `get_filter_components` returns for a filter mode: nothing to
      read without a mode, a month in mode `'m'`, and a month followed by a
      day, read from the lines after the month, in mode `'d'`. */
  function FilterComponents(mode: Option<string>, monthNames: seq<string>, dayNames: seq<string>,
                            inputs: seq<string>): (Answer<Components>, nat)
  {
    if !Truthy(mode) then (Accept(NoComponents), 0)
    else
      var month := FirstReply(inputs, NameParser(monthNames, MonthVariants));
      var k := month.1;
      if month.0.Reject? then (Reject, k)
      else if mode == Some("d") then
        var day := FirstReply(inputs[k..], NameParser(dayNames, DayVariants));
        if day.0.Reject? then (Reject, k + day.1)
        else (Accept(MonthAndDay(month.0.value, day.0.value)), k + day.1)
      else (Accept(MonthOnly(month.0.value)), k)
  }

  class Validate {
    /** `_month_names` and `_weekday_names`, the class's candidate lists. */
    const monthNames: seq<string>
    const weekdayNames: seq<string>

    /** `_filter_mode`: written by `GetFilterMode`, read by
        `GetFilterComponents`. */
    var filterMode: Option<string>

    ghost predicate Valid()
      reads this
    {
      monthNames == MonthNames && weekdayNames == DayNames && IsModeCode(filterMode)
    }

    constructor ()
      ensures Valid() && filterMode == None
    {
      monthNames, weekdayNames := MonthNames, DayNames;
      filterMode := None;
    }

    /** `get_city_filter` */
    method GetCityFilter(cityNames: seq<string>, inputs: seq<string>) returns (city: Answer<string>, used: nat)
      ensures (city, used) == FirstReply(inputs, NameParser(cityNames, CityVariants))
      ensures city.Accept? ==> city.value in cityNames
    {
      used := 0;
      while used < |inputs|
        invariant used <= |inputs|
        invariant forall j :: 0 <= j < used ==> MatchName(inputs[j], cityNames, CityVariants).Reject?
      {
        var answer := MatchName(inputs[used], cityNames, CityVariants);
        if answer.Accept? {
          FirstReplySkips(inputs, NameParser(cityNames, CityVariants), used);
          return answer, used + 1;
        }
        used := used + 1;
      }
      FirstReplySkips(inputs, NameParser(cityNames, CityVariants), used);
      return Reject, used;
    }

    /** `get_filter_mode`: the mode is stored only when a line is accepted. */
    method GetFilterMode(inputs: seq<string>) returns (mode: Answer<Option<string>>, used: nat)
      requires Valid()
      modifies this
      ensures Valid()
      ensures (mode, used) == FirstReply(inputs, MatchMode)
      ensures filterMode == if mode.Accept? then mode.value else old(filterMode)
    {
      used := 0;
      while used < |inputs|
        invariant used <= |inputs|
        invariant forall j :: 0 <= j < used ==> MatchMode(inputs[j]).Reject?
        invariant filterMode == old(filterMode)
      {
        var answer := MatchMode(inputs[used]);
        if answer.Accept? {
          filterMode := answer.value;
          FirstReplySkips(inputs, MatchMode, used);
          return answer, used + 1;
        }
        used := used + 1;
      }
      FirstReplySkips(inputs, MatchMode, used);
      return Reject, used;
    }

    /** `_get_month_component` */
    method GetMonthComponent(inputs: seq<string>) returns (month: Answer<string>, used: nat)
      ensures (month, used) == FirstReply(inputs, NameParser(monthNames, MonthVariants))
      ensures month.Accept? ==> month.value in monthNames
    {
      used := 0;
      while used < |inputs|
        invariant used <= |inputs|
        invariant forall j :: 0 <= j < used ==> MatchName(inputs[j], monthNames, MonthVariants).Reject?
      {
        var answer := MatchName(inputs[used], monthNames, MonthVariants);
        if answer.Accept? {
          FirstReplySkips(inputs, NameParser(monthNames, MonthVariants), used);
          return answer, used + 1;
        }
        used := used + 1;
      }
      FirstReplySkips(inputs, NameParser(monthNames, MonthVariants), used);
      return Reject, used;
    }

    /** `_get_day_component` */
    method GetDayComponent(inputs: seq<string>) returns (day: Answer<string>, used: nat)
      ensures (day, used) == FirstReply(inputs, NameParser(weekdayNames, DayVariants))
      ensures day.Accept? ==> day.value in weekdayNames
    {
      used := 0;
      while used < |inputs|
        invariant used <= |inputs|
        invariant forall j :: 0 <= j < used ==> MatchName(inputs[j], weekdayNames, DayVariants).Reject?
      {
        var answer := MatchName(inputs[used], weekdayNames, DayVariants);
        if answer.Accept? {
          FirstReplySkips(inputs, NameParser(weekdayNames, DayVariants), used);
          return answer, used + 1;
        }
        used := used + 1;
      }
      FirstReplySkips(inputs, NameParser(weekdayNames, DayVariants), used);
      return Reject, used;
    }

    /** `get_filter_components`: what it reads depends on the stored mode
        alone, and the month is always read before the day. */
    method GetFilterComponents(inputs: seq<string>) returns (components: Answer<Components>, used: nat)
      ensures components == FilterComponents(filterMode, monthNames, weekdayNames, inputs).0
      ensures used == FilterComponents(filterMode, monthNames, weekdayNames, inputs).1
    {
      if Truthy(filterMode) {
        var month, k := GetMonthComponent(inputs);
        if month.Reject? {
          components, used := Reject, k;
        } else if filterMode == Some("d") {
          var day, n := GetDayComponent(inputs[k..]);
          if day.Reject? {
            components, used := Reject, k + n;
          } else {
            components, used := Accept(MonthAndDay(month.value, day.value)), k + n;
          }
        } else {
          components, used := Accept(MonthOnly(month.value)), k;
        }
      } else {
        components, used := Accept(NoComponents), 0;
      }
    }

    /** `quit_program` */
    method QuitProgram(inputs: seq<string>) returns (quit: Answer<bool>, used: nat)
      ensures (quit, used) == FirstReply(inputs, MatchQuit)
    {
      used := 0;
      while used < |inputs|
        invariant used <= |inputs|
        invariant forall j :: 0 <= j < used ==> MatchQuit(inputs[j]).Reject?
      {
        var answer := MatchQuit(inputs[used]);
        if answer.Accept? {
          FirstReplySkips(inputs, MatchQuit, used);
          return answer, used + 1;
        }
        used := used + 1;
      }
      FirstReplySkips(inputs, MatchQuit, used);
      return Reject, used;
    }
  }
}

/** Properties of the prompt logic of validate.py. */
module ValidationFacts {
  import opened Outcomes
  import opened Text
  import opened Validation

  /** Every prompt compares the lower-cased input only, so the case in which
      the user types an answer never matters. */
  lemma CaseInsensitive(user: string, names: seq<string>, variants: string -> seq<string>)
    ensures MatchName(user, names, variants) == MatchName(Lower(user), names, variants)
    ensures MatchMode(user) == MatchMode(Lower(user))
    ensures MatchQuit(user) == MatchQuit(Lower(user))
  {
    LowerIdempotent(user);
  }

  /** `get_filter_mode` accepts exactly the three mode words and maps each to
      its code; `ModeWord` is its inverse. */
  lemma ModeWords(user: string, mode: Option<string>)
    requires IsModeCode(mode)
    ensures MatchMode(user) == Accept(mode) <==> Lower(user) == ModeWord(mode)
    ensures MatchMode(user).Reject? <==> Lower(user) !in ["month", "day", "none"]
  {
  }

  /** The first three letters of a candidate, lower-cased: every word the
      candidate accepts starts with them. */
  function Key(name: string): string {
    Lower(Prefix(name, 3))
  }

  // The words each candidate accepts, as the slicing and lower-casing of
  // validate.py compute them, one name at a time. These facts about string
  // literals (the variants, keys and cities below) are split into one small
  // lemma per literal so that each stays cheap for the solver.

  lemma JanuaryVariants()
    ensures MonthVariants("January") == ["jan", "january"]
  {
    assert Prefix("January", 3) == "Jan";
    LowerEach("Jan", "jan");
    LowerEach("January", "january");
  }

  lemma FebruaryVariants()
    ensures MonthVariants("February") == ["feb", "february"]
  {
    assert Prefix("February", 3) == "Feb";
    LowerEach("Feb", "feb");
    LowerEach("February", "february");
  }

  lemma MarchVariants()
    ensures MonthVariants("March") == ["mar", "march"]
  {
    assert Prefix("March", 3) == "Mar";
    LowerEach("Mar", "mar");
    LowerEach("March", "march");
  }

  lemma AprilVariants()
    ensures MonthVariants("April") == ["apr", "april"]
  {
    assert Prefix("April", 3) == "Apr";
    LowerEach("Apr", "apr");
    LowerEach("April", "april");
  }

  lemma MayVariants()
    ensures MonthVariants("May") == ["may", "may"]
  {
    assert Prefix("May", 3) == "May";
    LowerEach("May", "may");
  }

  lemma JuneVariants()
    ensures MonthVariants("June") == ["jun", "june"]
  {
    assert Prefix("June", 3) == "Jun";
    LowerEach("Jun", "jun");
    LowerEach("June", "june");
  }

  lemma MondayVariants()
    ensures DayVariants("Monday") == ["mon", "mond", "monday"]
  {
    assert Prefix("Monday", 3) == "Mon" && Prefix("Monday", 4) == "Mond";
    LowerEach("Mon", "mon");
    LowerEach("Mond", "mond");
    LowerEach("Monday", "monday");
  }

  lemma TuesdayVariants()
    ensures DayVariants("Tuesday") == ["tue", "tues", "tuesday"]
  {
    assert Prefix("Tuesday", 3) == "Tue" && Prefix("Tuesday", 4) == "Tues";
    LowerEach("Tue", "tue");
    LowerEach("Tues", "tues");
    LowerEach("Tuesday", "tuesday");
  }

  lemma WednesdayVariants()
    ensures DayVariants("Wednesday") == ["wed", "wedn", "wednesday"]
  {
    assert Prefix("Wednesday", 3) == "Wed" && Prefix("Wednesday", 4) == "Wedn";
    LowerEach("Wed", "wed");
    LowerEach("Wedn", "wedn");
    LowerEach("Wednesday", "wednesday");
  }

  lemma ThursdayVariants()
    ensures DayVariants("Thursday") == ["thu", "thur", "thursday"]
  {
    assert Prefix("Thursday", 3) == "Thu" && Prefix("Thursday", 4) == "Thur";
    LowerEach("Thu", "thu");
    LowerEach("Thur", "thur");
    LowerEach("Thursday", "thursday");
  }

  lemma FridayVariants()
    ensures DayVariants("Friday") == ["fri", "frid", "friday"]
  {
    assert Prefix("Friday", 3) == "Fri" && Prefix("Friday", 4) == "Frid";
    LowerEach("Fri", "fri");
    LowerEach("Frid", "frid");
    LowerEach("Friday", "friday");
  }

  lemma SaturdayVariants()
    ensures DayVariants("Saturday") == ["sat", "satu", "saturday"]
  {
    assert Prefix("Saturday", 3) == "Sat" && Prefix("Saturday", 4) == "Satu";
    LowerEach("Sat", "sat");
    LowerEach("Satu", "satu");
    LowerEach("Saturday", "saturday");
  }

  lemma SundayVariants()
    ensures DayVariants("Sunday") == ["sun", "sund", "sunday"]
  {
    assert Prefix("Sunday", 3) == "Sun" && Prefix("Sunday", 4) == "Sund";
    LowerEach("Sun", "sun");
    LowerEach("Sund", "sund");
    LowerEach("Sunday", "sunday");
  }

  lemma VariantsShareKey(name: string, w: string, variants: string -> seq<string>)
    requires |name| >= 3
    requires variants == MonthVariants || variants == DayVariants
    requires w in variants(name)
    ensures Prefix(w, 3) == Key(name)
  {
    LowerPrefix(name, 3);
    LowerPrefix(name, 4);
  }

  /** When the candidates' keys are pairwise distinct, no two candidates share
      an accepted word, so the first-match search returns a candidate exactly
      when the input is one of its words. */
  lemma MatchNameIff(user: string, names: seq<string>, variants: string -> seq<string>, i: nat)
    requires variants == MonthVariants || variants == DayVariants
    requires forall k :: 0 <= k < |names| ==> |names[k]| >= 3
    requires forall a, b :: 0 <= a < b < |names| ==> Key(names[a]) != Key(names[b])
    requires i < |names|
    ensures MatchName(user, names, variants) == Accept(names[i]) <==> Lower(user) in variants(names[i])
  {
    var u := Lower(user);
    var r := MatchName(user, names, variants);
    if u in variants(names[i]) {
      VariantsShareKey(names[i], u, variants);
      assert r.Accept?;
      var k :| 0 <= k < |names| && r.value == names[k] && u in variants(names[k])
        && forall j :: 0 <= j < k ==> u !in variants(names[j]);
      VariantsShareKey(names[k], u, variants);
      assert k == i;
    }
  }

  // The three-letter key of each candidate.

  lemma JanuaryKey()
    ensures Key("January") == "jan"
  {
    assert Prefix("January", 3) == "Jan";
  }

  lemma FebruaryKey()
    ensures Key("February") == "feb"
  {
    assert Prefix("February", 3) == "Feb";
  }

  lemma MarchKey()
    ensures Key("March") == "mar"
  {
    assert Prefix("March", 3) == "Mar";
  }

  lemma AprilKey()
    ensures Key("April") == "apr"
  {
    assert Prefix("April", 3) == "Apr";
  }

  lemma MayKey()
    ensures Key("May") == "may"
  {
    assert Prefix("May", 3) == "May";
  }

  lemma JuneKey()
    ensures Key("June") == "jun"
  {
    assert Prefix("June", 3) == "Jun";
  }

  lemma MondayKey()
    ensures Key("Monday") == "mon"
  {
    assert Prefix("Monday", 3) == "Mon";
  }

  lemma TuesdayKey()
    ensures Key("Tuesday") == "tue"
  {
    assert Prefix("Tuesday", 3) == "Tue";
  }

  lemma WednesdayKey()
    ensures Key("Wednesday") == "wed"
  {
    assert Prefix("Wednesday", 3) == "Wed";
  }

  lemma ThursdayKey()
    ensures Key("Thursday") == "thu"
  {
    assert Prefix("Thursday", 3) == "Thu";
  }

  lemma FridayKey()
    ensures Key("Friday") == "fri"
  {
    assert Prefix("Friday", 3) == "Fri";
  }

  lemma SaturdayKey()
    ensures Key("Saturday") == "sat"
  {
    assert Prefix("Saturday", 3) == "Sat";
  }

  lemma SundayKey()
    ensures Key("Sunday") == "sun"
  {
    assert Prefix("Sunday", 3) == "Sun";
  }

  /** The six months have distinct three-letter keys. */
  lemma MonthKeysDistinct()
    ensures forall a, b :: 0 <= a < b < |MonthNames| ==> Key(MonthNames[a]) != Key(MonthNames[b])
  {
    var keys := MonthKeys();
    assert forall a, b :: 0 <= a < b < |keys| ==> keys[a] != keys[b];
  }

  lemma MonthKeys() returns (keys: seq<string>)
    ensures keys == ["jan", "feb", "mar", "apr", "may", "jun"]
    ensures |keys| == |MonthNames| && forall k :: 0 <= k < |MonthNames| ==> Key(MonthNames[k]) == keys[k]
  {
    JanuaryKey(); FebruaryKey(); MarchKey(); AprilKey(); MayKey(); JuneKey();
    keys := ["jan", "feb", "mar", "apr", "may", "jun"];
  }

  /** The seven weekdays have distinct three-letter keys. */
  lemma DayKeysDistinct()
    ensures forall a, b :: 0 <= a < b < |DayNames| ==> Key(DayNames[a]) != Key(DayNames[b])
  {
    var keys := DayKeys();
    assert forall a, b :: 0 <= a < b < |keys| ==> keys[a] != keys[b];
  }

  lemma DayKeys() returns (keys: seq<string>)
    ensures keys == ["mon", "tue", "wed", "thu", "fri", "sat", "sun"]
    ensures |keys| == |DayNames| && forall k :: 0 <= k < |DayNames| ==> Key(DayNames[k]) == keys[k]
  {
    MondayKey(); TuesdayKey(); WednesdayKey(); ThursdayKey(); FridayKey(); SaturdayKey(); SundayKey();
    keys := ["mon", "tue", "wed", "thu", "fri", "sat", "sun"];
  }

  /** `_get_month_component` returns a month exactly when the input is that
      month's full name or its three-letter prefix, in any case. */
  lemma MonthIff(user: string, i: nat)
    requires i < |MonthNames|
    ensures MatchName(user, MonthNames, MonthVariants) == Accept(MonthNames[i])
        <==> Lower(user) in MonthVariants(MonthNames[i])
  {
    MonthKeysDistinct();
    MatchNameIff(user, MonthNames, MonthVariants, i);
  }

  /** `_get_day_component` returns a weekday exactly when the input is that
      day's full name or its three- or four-letter prefix, in any case. */
  lemma DayIff(user: string, i: nat)
    requires i < |DayNames|
    ensures MatchName(user, DayNames, DayVariants) == Accept(DayNames[i])
        <==> Lower(user) in DayVariants(DayNames[i])
  {
    DayKeysDistinct();
    MatchNameIff(user, DayNames, DayVariants, i);
  }

  /** Nothing is stripped from the input: a line holding a space is never a
      mode word nor a yes/no answer. */
  lemma SpacesRejected(user: string, i: nat)
    requires i < |user| && user[i] == ' '
    ensures MatchMode(user).Reject?
    ensures MatchQuit(user).Reject?
  {
    LowerAt(user, i);
  }

  /** A candidate without a space is only lower-cased. */
  lemma CityKeyWithoutSpace(name: string)
    requires ' ' !in name
    ensures CityKey(name) == Lower(name)
  {
    if ' ' in Lower(name) {
      var i :| 0 <= i < |name| && Lower(name)[i] == ' ';
      LowerAt(name, i);
    }
    ReplaceWithoutHead(Lower(name), " city", "");
  }

  lemma NewYorkTail()
    ensures Replace("new york city", " city", "") == "new york"
  {
    ReplaceWordsAtEnd("new", ' ', "york", " city", "");
    assert "new" + [' '] + "york" + " city" == "new york city";
    assert "new" + [' '] + "york" + "" == "new york";
  }

  // The candidate cities of the shipped data files, compared with the input
  // after `' city'` is removed.

  lemma ChicagoTail()
    ensures Replace("chicago", " city", "") == "chicago"
  {
    ReplaceWithoutHead("chicago", " city", "");
  }

  lemma ChicagoLower()
    ensures Lower("Chicago") == "chicago"
  {
    LowerEach("Chicago", "chicago");
  }

  lemma ChicagoKey()
    ensures CityKey("Chicago") == "chicago"
  {
    ChicagoLower();
    ChicagoTail();
  }

  lemma WashingtonTail()
    ensures Replace("washington", " city", "") == "washington"
  {
    ReplaceWithoutHead("washington", " city", "");
  }

  lemma WashingtonLower()
    ensures Lower("Washington") == "washington"
  {
    LowerEach("Washington", "washington");
  }

  lemma WashingtonKey()
    ensures CityKey("Washington") == "washington"
  {
    WashingtonLower();
    WashingtonTail();
  }

  lemma NewYorkLower()
    ensures Lower("New York City") == "new york city"
  {
    LowerEach("New York City", "new york city");
  }

  lemma NewYorkKey()
    ensures CityKey("New York City") == "new york"
  {
    NewYorkLower();
    NewYorkTail();
  }

  /** A city is chosen exactly by its key, lower-cased input being compared.
      `CityVariants` is the one-element list of the key, so this is short;
      it is kept apart from `NewYorkCity` so that the literal name is
      unfolded there only once, which keeps that proof cheap. */
  lemma CityChosen(name: string, key: string, user: string)
    requires CityKey(name) == key
    ensures Lower(user) in CityVariants(name) <==> Lower(user) == key
  {
  }

  /** "New York City" is chosen by `new york`, in any case, and not by its
      full name, because `' city'` is removed from the candidate only. */
  lemma NewYorkCity(user: string)
    ensures Lower(user) in CityVariants("New York City") <==> Lower(user) == "new york"
    ensures Lower(user) == "new york city" ==> Lower(user) !in CityVariants("New York City")
  {
    NewYorkKey();
    CityChosen("New York City", "new york", user);
    assert |"new york city"| != |"new york"|;
  }

  /** `get_filter_components` reads nothing and returns `None` exactly when
      the stored mode is falsy. */
  lemma FilterComponentsNone(mode: Option<string>, monthNames: seq<string>, dayNames: seq<string>,
                             inputs: seq<string>)
    ensures var (c, used) := FilterComponents(mode, monthNames, dayNames, inputs);
      && used <= |inputs|
      && (!Truthy(mode) <==> c == Accept(NoComponents))
      && (!Truthy(mode) ==> used == 0)
  {
    if Truthy(mode) {
      var (m, k) := FirstReply(inputs, NameParser(monthNames, MonthVariants));
      if m.Accept? && mode == Some("d") {
        var (d, n) := FirstReply(inputs[k..], NameParser(dayNames, DayVariants));
      }
    }
  }

  /** In a truthy mode other than `'d'`, `get_filter_components` returns the
      month of the first accepted line, a candidate month. */
  lemma FilterComponentsMonth(mode: Option<string>, monthNames: seq<string>, dayNames: seq<string>,
                              inputs: seq<string>)
    requires Truthy(mode) && mode != Some("d")
    ensures var (c, used) := FilterComponents(mode, monthNames, dayNames, inputs);
      c.Accept? ==>
        && c.value.MonthOnly?
        && c.value.month in monthNames
        && 0 < used
        && MatchName(inputs[used - 1], monthNames, MonthVariants) == Accept(c.value.month)
  {
    var parse := NameParser(monthNames, MonthVariants);
    FirstReplyAccepted(inputs, parse);
    var m := FirstReply(inputs, parse);
    if m.0.Accept? {
      assert FilterComponents(mode, monthNames, dayNames, inputs) == (Accept(MonthOnly(m.0.value)), m.1);
      assert parse(inputs[m.1 - 1]) == MatchName(inputs[m.1 - 1], monthNames, MonthVariants);
    }
  }

  /** In mode `'d'`, `get_filter_components` returns `[month, day]`, both
      candidates, and reads the month before the day: the day comes from the
      lines after the month's. */
  lemma FilterComponentsDay(monthNames: seq<string>, dayNames: seq<string>, inputs: seq<string>)
    ensures var (c, used) := FilterComponents(Some("d"), monthNames, dayNames, inputs);
      c.Accept? ==>
        var k := FirstReply(inputs, NameParser(monthNames, MonthVariants)).1;
        && c.value.MonthAndDay?
        && c.value.month in monthNames && c.value.day in dayNames
        && 0 < k < used
        && MatchName(inputs[k - 1], monthNames, MonthVariants) == Accept(c.value.month)
        && MatchName(inputs[used - 1], dayNames, DayVariants) == Accept(c.value.day)
  {
    var month := NameParser(monthNames, MonthVariants);
    FirstReplyAccepted(inputs, month);
    var m := FirstReply(inputs, month);
    var k := m.1;
    if m.0.Accept? {
      assert month(inputs[k - 1]) == MatchName(inputs[k - 1], monthNames, MonthVariants);
      var day := NameParser(dayNames, DayVariants);
      FirstReplyAccepted(inputs[k..], day);
      var d := FirstReply(inputs[k..], day);
      if d.0.Accept? {
        assert inputs[k..][d.1 - 1] == inputs[k + d.1 - 1];
        assert day(inputs[k + d.1 - 1]) == MatchName(inputs[k + d.1 - 1], dayNames, DayVariants);
      }
    }
  }
}
