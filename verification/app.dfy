/**
 * The `App` component: which screen is shown (landing page, the three
 * games, the final reveal), the "Game n/3" progress counter and the win
 * overlay raised between games. The React state setters are the fields of
 * the class `App`; each handler is a method. Which handler can fire
 * depends on what is rendered, and the pure function `Next` states that
 * wiring event by event.
 */
module AppFlow {
  import opened Subsequences

  datatype Screen = Landing | Game1 | Game2 | Game3 | Reveal
  {
    predicate IsGame() { this == Game1 || this == Game2 || this == Game3 }
  }

  /** The win overlay: none, or the one shown after game 1 or after game 2. */
  datatype Overlay = NoOverlay | AfterGame1 | AfterGame2

  datatype AppState = AppState(screen: Screen, gameStatus: nat, winOverlay: Overlay)

  /**
   * What the user or a game can trigger: the landing page's start button,
   * the restart button, a game's `onWin`, and the overlay's next button.
   */
  datatype UiEvent = Start | Restart | Win1 | Win2 | Win3 | NextGame

  function Initial(): AppState
  {
    AppState(Landing, 1, NoOverlay)
  }

  /**
   * The consistent states: game screen n shows progress n, the landing page
   * progress 1 and no overlay, the reveal progress 3, and each overlay sits
   * on the game it follows.
   */
  predicate Valid(s: AppState)
  {
    && 1 <= s.gameStatus <= 3
    && (s.screen == Landing ==> s.gameStatus == 1 && s.winOverlay == NoOverlay)
    && (s.screen == Game1 ==> s.gameStatus == 1)
    && (s.screen == Game2 ==> s.gameStatus == 2)
    && (s.screen == Game3 ==> s.gameStatus == 3)
    && (s.screen == Reveal ==> s.gameStatus == 3 && s.winOverlay == NoOverlay)
    && (s.winOverlay == AfterGame1 ==> s.screen == Game1)
    && (s.winOverlay == AfterGame2 ==> s.screen == Game2)
  }

  /**
   * The effect of one event. An event whose control is not rendered in `s`
   * changes nothing: start exists only on the landing page, restart only on
   * a game screen, game n's `onWin` only while game n is mounted, and the
   * next button only under an overlay, where it leads to the following game.
   */
  function Next(s: AppState, e: UiEvent): (r: AppState)
    ensures Valid(s) ==> Valid(r)
    ensures e == Restart && s.screen.IsGame() ==> r == Initial()
    ensures r.screen == Reveal && s.screen != Reveal ==> e == Win3 && s.screen == Game3
    ensures Valid(s) && r.gameStatus > s.gameStatus ==>
      e == NextGame && r.gameStatus == s.gameStatus + 1 && r.winOverlay == NoOverlay
    ensures r.winOverlay != NoOverlay && r.winOverlay != s.winOverlay ==>
      r.screen == s.screen && r.gameStatus == s.gameStatus
      && ((e == Win1 && r.winOverlay == AfterGame1) || (e == Win2 && r.winOverlay == AfterGame2))
  {
    match e
    case Start => if s.screen == Landing then s.(screen := Game1) else s
    case Restart => if s.screen.IsGame() then Initial() else s
    case Win1 => if s.screen == Game1 then s.(winOverlay := AfterGame1) else s
    case Win2 => if s.screen == Game2 then s.(winOverlay := AfterGame2) else s
    case Win3 => if s.screen == Game3 then s.(screen := Reveal) else s
    case NextGame =>
      if s.winOverlay == AfterGame1 then AppState(Game2, 2, NoOverlay)
      else if s.winOverlay == AfterGame2 then AppState(Game3, 3, NoOverlay)
      else s
  }

  function Run(s: AppState, es: seq<UiEvent>): AppState
    decreases |es|
  {
    if es == [] then s else Run(Next(s, es[0]), es[1..])
  }

  lemma {:induction false} RunKeepsValid(s: AppState, es: seq<UiEvent>)
    requires Valid(s)
    ensures Valid(Run(s, es))
    decreases |es|
  {
    if es != [] {
      RunKeepsValid(Next(s, es[0]), es[1..]);
    }
  }

  /** The events that move the player forward, in the order the games are played. */
  const Milestones: seq<UiEvent> := [Start, Win1, NextGame, Win2, NextGame, Win3]

  /** How far along `Milestones` a consistent state is, from 0 (landing) to 6 (reveal). */
  function Stage(s: AppState): (k: nat)
    ensures k <= |Milestones|
  {
    match s.screen
    case Landing => 0
    case Game1 => if s.winOverlay == AfterGame1 then 2 else 1
    case Game2 => if s.winOverlay == AfterGame2 then 4 else 3
    case Game3 => 5
    case Reveal => 6
  }

  /** One event advances by at most one stage, and only through the next milestone. */
  lemma StepStage(s: AppState, e: UiEvent)
    requires Valid(s)
    ensures Stage(Next(s, e)) <= Stage(s)
      || (Stage(Next(s, e)) == Stage(s) + 1 && e == Milestones[Stage(s)])
  {
  }

  /** Whatever stage a run ends beyond its starting one, it passed every milestone in between, in order. */
  lemma {:induction false} RunPassesMilestones(s: AppState, es: seq<UiEvent>)
    requires Valid(s)
    ensures var f := Stage(Run(s, es));
      f <= Stage(s) || IsSubseq(Milestones[Stage(s)..f], es)
    decreases |es|
  {
    if es != [] {
      var s' := Next(s, es[0]);
      var f := Stage(Run(s, es));
      StepStage(s, es[0]);
      RunPassesMilestones(s', es[1..]);
      assert Run(s, es) == Run(s', es[1..]);
      if f > Stage(s) {
        var m := Milestones[Stage(s)..f];
        if Stage(s') == Stage(s) + 1 {
          if f > Stage(s') {
            assert m[1..] == Milestones[Stage(s')..f];
          } else {
            assert m[1..] == [];
          }
          assert m[0] == es[0];
        } else {
          SuffixOfSubseq(Milestones[Stage(s')..f], es[1..], Stage(s) - Stage(s'));
          assert Milestones[Stage(s')..f][Stage(s) - Stage(s')..] == m;
          SubseqOfTail(m, es);
        }
      }
    }
  }

  /**
   * The reveal is reached from the landing page only by starting, winning
   * game 1, going on, winning game 2, going on and winning game 3, in that
   * order (other events may come in between).
   */
  lemma RevealNeedsAllWins(es: seq<UiEvent>)
    requires Run(Initial(), es).screen == Reveal
    ensures IsSubseq(Milestones, es)
  {
    RunPassesMilestones(Initial(), es);
    assert Milestones[0..6] == Milestones;
  }

  /** The state of the `App` component. */
  class App {
    var screen: Screen
    var gameStatus: nat
    var winOverlay: Overlay

    function State(): AppState
      reads this
    {
      AppState(screen, gameStatus, winOverlay)
    }

    /** The initial `useState` values. */
    constructor ()
      ensures State() == Initial() && Valid(State())
    {
      screen, gameStatus, winOverlay := Landing, 1, NoOverlay;
    }

    /** `handleRestart`. */
    method HandleRestart()
      modifies this
      ensures State() == Initial()
    {
      screen := Landing;
      gameStatus := 1;
      winOverlay := NoOverlay;
    }

    /** `handleWin1`; the sparkle sound is left out. */
    method HandleWin1()
      modifies this`winOverlay
      ensures winOverlay == AfterGame1
    {
      winOverlay := AfterGame1;
    }

    /** `handleWin2`; the sparkle sound is left out. */
    method HandleWin2()
      modifies this`winOverlay
      ensures winOverlay == AfterGame2
    {
      winOverlay := AfterGame2;
    }

    /** `handleWin3`. */
    method HandleWin3()
      modifies this`screen
      ensures screen == Reveal
    {
      screen := Reveal;
    }

    /** `goToGame2`. */
    method GoToGame2()
      modifies this
      ensures State() == AppState(Game2, 2, NoOverlay)
    {
      gameStatus := 2;
      screen := Game2;
      winOverlay := NoOverlay;
    }

    /** `goToGame3`. */
    method GoToGame3()
      modifies this
      ensures State() == AppState(Game3, 3, NoOverlay)
    {
      gameStatus := 3;
      screen := Game3;
      winOverlay := NoOverlay;
    }

    /** The landing page's `onStart`. */
    method OnStart()
      modifies this`screen
      ensures screen == Game1
    {
      screen := Game1;
    }

    /** Routes an event to the handler its rendered control is wired to. */
    method Dispatch(e: UiEvent)
      requires Valid(State())
      modifies this
      ensures State() == Next(old(State()), e)
      ensures Valid(State())
    {
      match e
      case Start => if screen == Landing { OnStart(); }
      case Restart => if screen.IsGame() { HandleRestart(); }
      case Win1 => if screen == Game1 { HandleWin1(); }
      case Win2 => if screen == Game2 { HandleWin2(); }
      case Win3 => if screen == Game3 { HandleWin3(); }
      case NextGame =>
        if winOverlay == AfterGame1 {
          GoToGame2();
        } else if winOverlay == AfterGame2 {
          GoToGame3();
        }
    }
  }

  /*
   * The calendar file offered on the reveal screen: ten fixed content lines
   * joined with CRLF, the line delimiter of section 3.1 of RFC 5545.
   */

  const Crlf: string := "\r\n"

  /** `lines.join(sep)`: the lines with `sep` between each two, none at either end. */
  function Join(lines: seq<string>, sep: string): (r: string)
    ensures lines == [] ==> r == ""
    ensures |lines| >= 1 ==> |lines[0]| <= |r| && r[..|lines[0]|] == lines[0]
    decreases |lines|
  {
    if |lines| == 0 then ""
    else if |lines| == 1 then lines[0]
    else lines[0] + sep + Join(lines[1..], sep)
  }

  /** A joined text ends with a separator and its last line. */
  lemma {:induction false} JoinLast(lines: seq<string>, sep: string)
    requires |lines| >= 2
    ensures Join(lines, sep) == Join(lines[..|lines| - 1], sep) + sep + lines[|lines| - 1]
    decreases |lines|
  {
    var init := lines[..|lines| - 1];
    if |lines| > 2 {
      JoinLast(lines[1..], sep);
      assert init[1..] == lines[1..][..|lines| - 2];
    }
  }

  predicate NoCr(s: string)
  {
    forall i :: 0 <= i < |s| ==> s[i] != '\r'
  }

  /** Cuts a text at every CRLF; the inverse of joining with CRLF. */
  function SplitLines(s: string): (r: seq<string>)
    ensures |r| >= 1
    decreases |s|
  {
    if |s| >= 2 && s[0] == '\r' && s[1] == '\n' then [""] + SplitLines(s[2..])
    else if s == [] then [""]
    else
      var t := SplitLines(s[1..]);
      [[s[0]] + t[0]] + t[1..]
  }

  lemma JoinCons(x: string, t: seq<string>, sep: string)
    requires |t| >= 1
    ensures Join([x] + t, sep) == x + sep + Join(t, sep)
  {
    assert ([x] + t)[1..] == t;
  }

  /** Putting a character in front of the first line puts it in front of the joined text. */
  lemma JoinPrepend(c: char, t: seq<string>, sep: string)
    requires |t| >= 1
    ensures Join([[c] + t[0]] + t[1..], sep) == [c] + Join(t, sep)
  {
    if |t| > 1 {
      JoinCons([c] + t[0], t[1..], sep);
      JoinCons(t[0], t[1..], sep);
      assert t == [t[0]] + t[1..];
    }
  }

  /** Joining the pieces of any text with CRLF gives the text back. */
  lemma {:induction false} SplitThenJoin(s: string)
    ensures Join(SplitLines(s), Crlf) == s
    decreases |s|
  {
    if |s| >= 2 && s[0] == '\r' && s[1] == '\n' {
      var t := SplitLines(s[2..]);
      SplitThenJoin(s[2..]);
      JoinCons("", t, Crlf);
      assert s == Crlf + s[2..];
    } else if s != [] {
      var t := SplitLines(s[1..]);
      SplitThenJoin(s[1..]);
      JoinPrepend(s[0], t, Crlf);
      assert s == [s[0]] + s[1..];
    }
  }

  lemma {:induction false} SplitLineWithoutCr(w: string)
    requires NoCr(w)
    ensures SplitLines(w) == [w]
    decreases |w|
  {
    if w != [] {
      SplitLineWithoutCr(w[1..]);
      assert w == [w[0]] + w[1..];
    }
  }

  lemma {:induction false} SplitAfterLine(w: string, rest: string)
    requires NoCr(w)
    ensures SplitLines(w + Crlf + rest) == [w] + SplitLines(rest)
    decreases |w|
  {
    var s := w + Crlf + rest;
    if w == [] {
      assert s[2..] == rest;
    } else {
      SplitAfterLine(w[1..], rest);
      assert s[1..] == w[1..] + Crlf + rest;
      assert w == [w[0]] + w[1..];
    }
  }

  /** Lines without a carriage return survive being joined with CRLF and cut again. */
  lemma {:induction false} JoinThenSplit(lines: seq<string>)
    requires |lines| >= 1
    requires forall i :: 0 <= i < |lines| ==> NoCr(lines[i])
    ensures SplitLines(Join(lines, Crlf)) == lines
    decreases |lines|
  {
    if |lines| == 1 {
      SplitLineWithoutCr(lines[0]);
    } else {
      JoinThenSplit(lines[1..]);
      SplitAfterLine(lines[0], Join(lines[1..], Crlf));
      assert lines == [lines[0]] + lines[1..];
    }
  }

  /** The characters that section 3.3.11 of RFC 5545 escapes with a backslash in a TEXT value. */
  predicate IsTextSpecial(c: char)
  {
    c == ',' || c == ';' || c == '\\'
  }

  /** A TEXT value: each comma, semicolon and backslash is preceded by a backslash. */
  function TextEscape(s: string): (r: string)
    ensures |r| >= |s|
    decreases |s|
  {
    if s == [] then ""
    else if IsTextSpecial(s[0]) then ['\\', s[0]] + TextEscape(s[1..])
    else [s[0]] + TextEscape(s[1..])
  }

  /** Reads a TEXT value back: a backslash takes the next character literally. */
  function TextUnescape(s: string): string
    decreases |s|
  {
    if s == [] then ""
    else if s[0] == '\\' && |s| >= 2 then [s[1]] + TextUnescape(s[2..])
    else [s[0]] + TextUnescape(s[1..])
  }

  lemma {:induction false} EscapeThenUnescape(s: string)
    ensures TextUnescape(TextEscape(s)) == s
    decreases |s|
  {
    if s != [] {
      EscapeThenUnescape(s[1..]);
      var e := TextEscape(s);
      if IsTextSpecial(s[0]) {
        assert e[2..] == TextEscape(s[1..]);
      } else {
        assert e[1..] == TextEscape(s[1..]);
      }
      assert s == [s[0]] + s[1..];
    }
  }

  lemma {:induction false} EscapeConcat(a: string, b: string)
    ensures TextEscape(a + b) == TextEscape(a) + TextEscape(b)
    decreases |a|
  {
    if a == [] {
      assert a + b == b;
    } else {
      var ab := a + b;
      assert ab[0] == a[0] && ab[1..] == a[1..] + b;
      EscapeConcat(a[1..], b);
    }
  }

  /** The parts of the date's street address, between its two commas. */
  const Street: string := "2340 Bluewater Way"
  const City: string := " Clearwater"
  const Region: string := " Florida 33759"

  const Address: string := Street + ("," + (City + ("," + Region)))
  /** The LOCATION value as the calendar file writes it. */
  const LocationValue: string := Street + ("\\," + (City + ("\\," + Region)))

  predicate PlainText(s: string)
  {
    forall i :: 0 <= i < |s| ==> !IsTextSpecial(s[i])
  }

  /** A text with nothing to escape is its own TEXT value. */
  lemma {:induction false} EscapePlain(s: string)
    requires PlainText(s)
    ensures TextEscape(s) == s
    decreases |s|
  {
    if s != [] {
      EscapePlain(s[1..]);
    }
  }

  /** Escaping three plain parts separated by commas escapes just the two commas. */
  lemma EscapeCommaSeparated(a: string, b: string, c: string)
    requires PlainText(a) && PlainText(b) && PlainText(c)
    ensures TextEscape(a + ("," + (b + ("," + c)))) == a + ("\\," + (b + ("\\," + c)))
  {
    EscapePlain(a);
    EscapePlain(b);
    EscapePlain(c);
    EscapeConcat(a, "," + (b + ("," + c)));
    EscapeConcat(",", b + ("," + c));
    EscapeConcat(b, "," + c);
    EscapeConcat(",", c);
    assert TextEscape(",") == "\\,";
  }

  lemma AddressPartsArePlain()
    ensures PlainText(Street) && PlainText(City) && PlainText(Region)
  {
  }

  /** The LOCATION value is the address with its commas escaped, and reads back as the address. */
  lemma LocationIsEscapedAddress()
    ensures LocationValue == TextEscape(Address)
    ensures TextUnescape(LocationValue) == Address
  {
    AddressPartsArePlain();
    EscapeCommaSeparated(Street, City, Region);
    EscapeThenUnescape(Address);
  }

  /** The time-zone parameter and separator in front of both date-times. */
  const TimeZone: string := "TZID=America/New_York:"

  const CalendarBegin: string := "BEGIN:VCALENDAR"
  const CalendarEnd: string := "END:VCALENDAR"

  /** The ten content lines of `icsContent`. */
  function IcsLines(): seq<string>
  {
    [ CalendarBegin,
      "VERSION:2.0",
      "PRODID:-//Valentine//EN",
      "BEGIN:VEVENT",
      "DTSTART;" + (TimeZone + "20250214T180000"),
      "DTEND;" + (TimeZone + "20250214T210000"),
      "SUMMARY:Valentine Date with Omar",
      "LOCATION:" + LocationValue,
      "END:VEVENT",
      CalendarEnd ]
  }

  /** `icsContent`. */
  function IcsContent(): string
  {
    Join(IcsLines(), Crlf)
  }

  lemma IcsHeaderHasNoCr()
    ensures NoCr(IcsLines()[0]) && NoCr(IcsLines()[1]) && NoCr(IcsLines()[2]) && NoCr(IcsLines()[3])
  {
    var lines := IcsLines();
    assert NoCr(lines[0]) && NoCr(lines[1]);
    assert NoCr(lines[2]) && NoCr(lines[3]);
  }

  lemma IcsTimesHaveNoCr()
    ensures NoCr(IcsLines()[4]) && NoCr(IcsLines()[5])
  {
    var lines := IcsLines();
    assert NoCr(TimeZone);
    assert NoCr(lines[4]) && NoCr(lines[5]);
  }

  lemma IcsEventHasNoCr()
    ensures NoCr(IcsLines()[6]) && NoCr(IcsLines()[7]) && NoCr(IcsLines()[8]) && NoCr(IcsLines()[9])
  {
    var lines := IcsLines();
    assert NoCr(lines[6]);
    assert NoCr(Street) && NoCr(City) && NoCr(Region);
    assert NoCr(lines[7]);
    assert NoCr(lines[8]) && NoCr(lines[9]);
  }

  /** No line of the calendar holds a carriage return. */
  lemma IcsLinesHaveNoCr()
    ensures forall i :: 0 <= i < |IcsLines()| ==> NoCr(IcsLines()[i])
  {
    IcsHeaderHasNoCr();
    IcsTimesHaveNoCr();
    IcsEventHasNoCr();
  }

  /**
   * `r` is `lines` written with CRLF between them: it starts with the first
   * line, ends with a CRLF and the last line (no CRLF after it), and cuts at
   * its CRLFs into exactly `lines`.
   */
  predicate CrlfText(r: string, lines: seq<string>)
    requires |lines| >= 2
  {
    && |lines[0]| <= |r| && r[..|lines[0]|] == lines[0]
    && |Crlf + lines[|lines| - 1]| <= |r| && r[|r| - |Crlf + lines[|lines| - 1]|..] == Crlf + lines[|lines| - 1]
    && SplitLines(r) == lines
  }

  lemma EndsWith(head: string, sep: string, last: string)
    ensures var r := head + sep + last;
      |sep + last| <= |r| && r[|r| - |sep + last|..] == sep + last
  {
    var r := head + sep + last;
    assert r == head + (sep + last);
    assert r[|head|..] == sep + last;
  }

  /** Two or more lines without a carriage return, joined with CRLF, form a CRLF text. */
  lemma CalendarShape(lines: seq<string>)
    requires |lines| >= 2 && forall i :: 0 <= i < |lines| ==> NoCr(lines[i])
    ensures CrlfText(Join(lines, Crlf), lines)
  {
    JoinLast(lines, Crlf);
    EndsWith(Join(lines[..|lines| - 1], Crlf), Crlf, lines[|lines| - 1]);
    JoinThenSplit(lines);
  }

  /** The calendar has ten lines, opening with BEGIN:VCALENDAR and closing with END:VCALENDAR. */
  lemma IcsLinesFrame()
    ensures |IcsLines()| == 10
    ensures IcsLines()[0] == CalendarBegin && IcsLines()[9] == CalendarEnd
  {
  }

  /**
   * The calendar text starts with BEGIN:VCALENDAR, ends with a CRLF and
   * END:VCALENDAR (no CRLF after it), and cuts at its CRLFs into exactly the
   * ten lines.
   */
  lemma IcsContentShape()
    ensures CrlfText(IcsContent(), IcsLines())
  {
    IcsLinesHaveNoCr();
    CalendarShape(IcsLines());
  }
}
