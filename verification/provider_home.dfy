/** The provider home screen: the "upcoming patients" strip (the first two
    upcoming bookings, numbered and with the time cut to `HH:MM`, or two
    fixed sample patients when there are none), the initials shown when a
    picture fails to load, and the hashtag line under a post. */
module ProviderHome {
  import opened Wrappers
  import opened Text
  import opened Database
  import opened BookingDisplay

  datatype UpcomingPatient = UpcomingPatient(id: string, bookingNumber: string, name: string, date: string, time: string)

  /** The status the screen asks the bookings hook for. */
  const QueriedStatus := Upcoming

  const MockPatients := [
    UpcomingPatient("1", "#23567", "Darlene Robertson", "May 22, 2025", "10:00"),
    UpcomingPatient("2", "#23568", "Leslie Alexander", "May 22, 2025", "11:30")
  ]

  function Entry(a: Appointment, name: string): (r: UpcomingPatient)
    ensures r.id == a.id && r.name == name
    ensures r.bookingNumber == BookingNumber(a.id) && r.time == ShortTime(a.time)
  {
    UpcomingPatient(a.id, BookingNumber(a.id), name, a.date, ShortTime(a.time))
  }

  /** The strip for the hook's bookings; `name` gives a booking's joined
      patient name. */
  function Strip(bookings: seq<Appointment>, name: Appointment -> string): (r: seq<UpcomingPatient>)
    ensures |bookings| == 0 ==> r == MockPatients
    ensures |bookings| > 0 ==> |r| == if |bookings| < 2 then |bookings| else 2
    ensures |bookings| > 0 ==> forall i :: 0 <= i < |r| ==> r[i] == Entry(bookings[i], name(bookings[i]))
  {
    if |bookings| == 0 then MockPatients
    else
      var first := if |bookings| < 2 then bookings else bookings[..2];
      seq(|first|, i requires 0 <= i < |first| => Entry(first[i], name(first[i])))
  }

  /** The strip always has one or two entries, in the bookings' order. */
  lemma StripShape(bookings: seq<Appointment>, name: Appointment -> string)
    ensures 1 <= |Strip(bookings, name)| <= 2
    ensures |bookings| >= 2 ==> Strip(bookings, name)[0].id == bookings[0].id && Strip(bookings, name)[1].id == bookings[1].id
  {
  }

  /** `name.split(' ').map(n => n[0]).join('')`, read left to right: a
      character starts a piece when it follows a space or opens the text,
      and each non-empty piece gives its first character. An empty piece
      (two spaces in a row, or a space at either end) gives `undefined`,
      which `join` prints as nothing. `start` says whether a piece starts
      here. */
  function InitialsFrom(name: string, start: bool): (r: string)
    ensures |r| <= |name|
    ensures forall i :: 0 <= i < |r| ==> r[i] != ' ' && r[i] in name
    decreases |name|
  {
    if name == "" then ""
    else if name[0] == ' ' then InitialsFrom(name[1..], true)
    else
      var rest := InitialsFrom(name[1..], false);
      assert forall i :: 0 <= i < |rest| ==> rest[i] in name;
      (if start then [name[0]] else "") + rest
  }

  function Initials(name: string): (r: string)
    ensures |r| <= |name|
    ensures forall i :: 0 <= i < |r| ==> r[i] != ' ' && r[i] in name
  {
    InitialsFrom(name, true)
  }

  /** A name without spaces has its first character as its initials. */
  lemma {:induction false} InitialsOfOneWord(name: string)
    requires name != "" && ' ' !in name
    ensures Initials(name) == [name[0]]
  {
    NoInitialsInsideWord(name[1..]);
  }

  /** Inside a word no piece starts. */
  lemma {:induction false} NoInitialsInsideWord(w: string)
    requires ' ' !in w
    ensures InitialsFrom(w, false) == ""
    decreases |w|
  {
    if w != "" {
      NoInitialsInsideWord(w[1..]);
    }
  }

  /** A space splits the initials: those of `a + " " + b` are the initials
      of `a` followed by those of `b`. */
  lemma {:induction false} InitialsSplitAtSpace(a: string, b: string, start: bool)
    ensures InitialsFrom(a + [' '] + b, start) == InitialsFrom(a, start) + InitialsFrom(b, true)
    decreases |a|
  {
    if a == "" {
      assert a + [' '] + b == [' '] + b;
      assert ([' '] + b)[1..] == b;
    } else {
      assert (a + [' '] + b)[0] == a[0];
      assert (a + [' '] + b)[1..] == a[1..] + [' '] + b;
      InitialsSplitAtSpace(a[1..], b, a[0] == ' ');
    }
  }

  /** The avatar fallback: the initials of the profile's name, or of "Dr"
      when it has none. */
  function AvatarInitials(fullName: Option<string>): (r: string)
    ensures !Truthy(fullName) ==> r == "D"
    ensures Truthy(fullName) ==> r == Initials(fullName.value)
  {
    if Truthy(fullName) then Initials(fullName.value)
    else
      InitialsOfOneWord("Dr");
      Initials("Dr")
  }

  /** A first and last name give two letters. */
  lemma TwoWordNames(first: string, last: string)
    requires first != "" && last != "" && ' ' !in first && ' ' !in last
    ensures Initials(first + " " + last) == [first[0], last[0]]
  {
    assert first + " " + last == first + [' '] + last;
    InitialsSplitAtSpace(first, last, true);
    InitialsOfOneWord(first);
    InitialsOfOneWord(last);
  }

  /** `s.replace(/\s+/g, '')`: every white-space character dropped. */
  function DropSpaces(s: string): (r: string)
    ensures |r| <= |s| && Spaceless(r)
    ensures Spaceless(s) ==> r == s
  {
    if s == "" then ""
    else if IsSpace(s[0]) then DropSpaces(s[1..])
    else [s[0]] + DropSpaces(s[1..])
  }

  predicate Spaceless(s: string) {
    forall i :: 0 <= i < |s| ==> !IsSpace(s[i])
  }

  /** A category as a hashtag. */
  function Hashtag(category: string): (r: string)
    ensures |r| > 0 && r[0] == '#' && r[1..] == DropSpaces(category)
  {
    "#" + DropSpaces(category)
  }

  /** The hashtag line: the categories' hashtags joined by single spaces. */
  function Hashtags(categories: seq<string>): (r: string)
    ensures categories == [] <==> r == ""
    ensures |categories| == 1 ==> r == Hashtag(categories[0])
  {
    if |categories| == 0 then ""
    else if |categories| == 1 then Hashtag(categories[0])
    else Hashtag(categories[0]) + " " + Hashtags(categories[1..])
  }

  /** Every space in the line separates two hashtags: the line has exactly
      one space fewer than there are categories. */
  lemma {:induction false} OneSpacePerGap(categories: seq<string>)
    requires |categories| > 0
    ensures CountChar(Hashtags(categories), ' ') == |categories| - 1
    decreases |categories|
  {
    NoSpaceInHashtag(categories[0]);
    if |categories| > 1 {
      OneSpacePerGap(categories[1..]);
      var h := Hashtag(categories[0]);
      CountCharAppend(h + " ", Hashtags(categories[1..]), ' ');
      CountCharAppend(h, " ", ' ');
    }
  }

  function CountChar(s: string, c: char): nat {
    if s == "" then 0 else (if s[0] == c then 1 else 0) + CountChar(s[1..], c)
  }

  lemma {:induction false} CountCharAppend(a: string, b: string, c: char)
    ensures CountChar(a + b, c) == CountChar(a, c) + CountChar(b, c)
    decreases |a|
  {
    if a == "" {
      assert a + b == b;
    } else {
      assert (a + b)[0] == a[0] && (a + b)[1..] == a[1..] + b;
      CountCharAppend(a[1..], b, c);
    }
  }

  lemma NoSpaceInHashtag(category: string)
    ensures CountChar(Hashtag(category), ' ') == 0
  {
    var d := DropSpaces(category);
    var h := Hashtag(category);
    assert h == "#" + d;
    assert Spaceless(h) by {
      forall i | 0 <= i < |h| ensures !IsSpace(h[i]) {
        if i > 0 {
          assert h[i] == d[i - 1];
        }
      }
    }
    SpacelessCountsZero(h);
  }

  lemma {:induction false} SpacelessCountsZero(s: string)
    requires Spaceless(s)
    ensures CountChar(s, ' ') == 0
    decreases |s|
  {
    if s != "" {
      assert !IsSpace(s[0]);
      assert Spaceless(s[1..]) by {
        forall i | 0 <= i < |s[1..]| ensures !IsSpace(s[1..][i]) {
          assert s[1..][i] == s[i + 1];
        }
      }
      SpacelessCountsZero(s[1..]);
    }
  }

  lemma DropSpacesAround(a: string, b: string)
    requires Spaceless(a) && Spaceless(b)
    ensures DropSpaces(a + [' '] + b) == a + b
  {
    DropLeadingSpace(b);
    DropSpacesAppend(a, [' '] + b);
    assert a + [' '] + b == a + ([' '] + b);
  }

  lemma DropLeadingSpace(b: string)
    ensures DropSpaces([' '] + b) == DropSpaces(b)
  {
    assert ([' '] + b)[1..] == b;
  }

  lemma {:induction false} DropSpacesAppend(a: string, b: string)
    ensures DropSpaces(a + b) == DropSpaces(a) + DropSpaces(b)
    decreases |a|
  {
    if a == "" {
      assert a + b == b;
    } else {
      assert (a + b)[0] == a[0] && (a + b)[1..] == a[1..] + b;
      DropSpacesAppend(a[1..], b);
    }
  }

  /** A two-word category and a one-word one, such as the first sample
      post's "Health Tips" and "Cardiology", show as "#HealthTips
      #Cardiology": the space inside a category goes, the one between them
      stays. */
  lemma TwoWordCategoryTags(a: string, b: string, c: string)
    requires Spaceless(a) && Spaceless(b) && Spaceless(c)
    ensures Hashtags([a + " " + b, c]) == "#" + a + b + " " + "#" + c
  {
    assert [a + " " + b, c][1..] == [c];
    assert a + " " + b == a + [' '] + b;
    DropSpacesAround(a, b);
  }
}

/** The provider home screen's sample patients, as the screen shows them. */
module ProviderHomeSamples {
  import opened ProviderHome

  /** The sample patients show as "DR" and "LA". */
  lemma SamplePatientInitials()
    ensures Initials(MockPatients[0].name) == "DR" && Initials(MockPatients[1].name) == "LA"
  {
    assert MockPatients[0].name == "Darlene Robertson";
    assert MockPatients[1].name == "Leslie Alexander";
    DarleneInitials();
    LeslieInitials();
  }

  lemma DarleneInitials()
    ensures Initials("Darlene Robertson") == "DR"
  {
    assert "Darlene Robertson" == "Darlene" + " " + "Robertson";
    TwoWordNames("Darlene", "Robertson");
  }

  lemma LeslieInitials()
    ensures Initials("Leslie Alexander") == "LA"
  {
    assert "Leslie Alexander" == "Leslie" + " " + "Alexander";
    TwoWordNames("Leslie", "Alexander");
  }
}
