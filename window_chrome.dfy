/**
 * The window chrome of the landing page (script_window.js): the taskbar
 * clock, which shows a fixed date with the current hour on a 12-hour dial
 * and a Turkish period word, and the double-click fullscreen toggle of each
 * window, which saves the window's inline style and puts it back.
 */
module WindowChrome {
  import opened Text

  // ---------------------------------------------------------------- clock

  /** `sabah` before noon, `akşam` from noon on. */
  function Period(hours: nat): (r: string)
    ensures r == "sabah" <==> hours < 12
    ensures r == "sabah" || r == "ak\U{015F}am"
  {
    if hours >= 12 then "ak\U{015F}am" else "sabah"
  }

  /** The hour on the dial: hours past 12 lose 12, and 0 shows as 12. */
  function DialHour(hours: nat): (h: nat)
    requires hours < 24
    ensures 1 <= h <= 12
    ensures h % 12 == hours % 12
  {
    var h := if hours > 12 then hours - 12 else hours;
    if h == 0 then 12 else h
  }

  /** `n.toString().padStart(2, '0')` */
  function TwoDigits(n: nat): string
  {
    PadStart(NatToString(n), 2, '0')
  }

  /** `updateClock`'s text for the hour and minute `Date` gives. */
  function ClockText(hours: nat, minutes: nat): string
    requires hours < 24 && minutes < 60
  {
    "21" + "/" + "01" + "/" + "2037" + " " + Period(hours) + " " + TwoDigits(DialHour(hours)) + ":" + TwoDigits(minutes)
  }

  /** Below 100 the padded text is two digits that read back as the number. */
  lemma TwoDigitsValue(n: nat)
    requires n < 100
    ensures var t := TwoDigits(n);
            |t| == 2 && (forall i :: 0 <= i < 2 ==> '0' <= t[i] <= '9') && DigitsValue(t) == n
  {
    if n < 10 {
      OneDigit(n);
    } else {
      assert NatToString(n) == NatToString(n / 10) + [DigitChar(n % 10)];
      assert NatToString(n / 10) == [DigitChar(n / 10)];
      NatToStringValue(n);
    }
  }

  lemma OneDigit(n: nat)
    requires n < 10
    ensures TwoDigits(n) == ['0', DigitChar(n)] && DigitsValue(['0', DigitChar(n)]) == n
  {
    assert NatToString(n) == [DigitChar(n)];
    var t := ['0', DigitChar(n)];
    assert t[..1] == ['0'];
    assert ['0'][..0] == [];
    assert DigitsValue(['0']) == 0;
  }

  /**
   * The clock always shows the date `21/01/2037`, the period word, and the
   * padded dial hour and minutes in fixed places.
   */
  lemma ClockLayout(hours: nat, minutes: nat)
    requires hours < 24 && minutes < 60
    ensures |ClockText(hours, minutes)| == 22
    ensures ClockText(hours, minutes)[..11] == "21/01/2037 "
    ensures ClockText(hours, minutes)[11..16] == Period(hours)
    ensures ClockText(hours, minutes)[16] == ' ' && ClockText(hours, minutes)[19] == ':'
    ensures ClockText(hours, minutes)[17..19] == TwoDigits(DialHour(hours))
    ensures ClockText(hours, minutes)[20..] == TwoDigits(minutes)
  {
    var hh, mm := TwoDigits(DialHour(hours)), TwoDigits(minutes);
    TwoDigitsLength(DialHour(hours));
    TwoDigitsLength(minutes);
    ClockPieces(hours, minutes);
    Slices("21/01/2037 ", Period(hours), hh, mm);
  }

  lemma TwoDigitsLength(n: nat)
    requires n < 100
    ensures |TwoDigits(n)| == 2
  {
    TwoDigitsValue(n);
  }

  lemma ClockPieces(hours: nat, minutes: nat)
    requires hours < 24 && minutes < 60
    ensures ClockText(hours, minutes) == "21/01/2037 " + Period(hours) + " " + TwoDigits(DialHour(hours)) + ":" + TwoDigits(minutes)
  {
    assert "21" + "/" == "21/";
    assert "21/" + "01" == "21/01";
    assert "21/01" + "/" == "21/01/";
    assert "21/01/" + "2037" == "21/01/2037";
    assert "21/01/2037" + " " == "21/01/2037 ";
  }

  /** Where the pieces of `head period hh:mm` sit once joined. */
  lemma Slices(head: string, period: string, hh: string, mm: string)
    requires |head| == 11 && |period| == 5 && |hh| == 2 && |mm| == 2
    ensures var t := head + period + " " + hh + ":" + mm;
            |t| == 22 && t[..11] == head && t[11..16] == period && t[16] == ' ' &&
            t[17..19] == hh && t[19] == ':' && t[20..] == mm
  {
  }

  /** Midnight shows `sabah 12`, noon `akşam 12`, and an afternoon hour its value less 12. */
  lemma ClockHours(hours: nat)
    requires hours < 24
    ensures hours == 0 ==> DialHour(hours) == 12 && Period(hours) == "sabah"
    ensures hours == 12 ==> DialHour(hours) == 12 && Period(hours) == "ak\U{015F}am"
    ensures 12 < hours ==> DialHour(hours) == hours - 12 && Period(hours) == "ak\U{015F}am"
    ensures 0 < hours < 12 ==> DialHour(hours) == hours && Period(hours) == "sabah"
  {
  }

  // ---------------------------------------------------------------- fullscreen

  /** A window's inline `top`, `left`, `width`, `height` and `position`. */
  datatype Style = Style(top: string, left: string, width: string, height: string, position: string)

  /** The state one window's handlers share: its style, its z-index, the flags and the saved style. */
  datatype Frame = Frame(style: Style, zIndex: string, fullScreen: bool, dragging: bool, saved: Style)

  const Covering: Style := Style("0px", "0px", "100vw", "100vh", "fixed")

  /** The header's `dblclick`: save the style and cover the screen, or put the saved style back. */
  function DoubleClick(f: Frame): Frame
  {
    if !f.fullScreen then f.(saved := f.style, style := Covering, zIndex := "9999", fullScreen := true)
    else f.(style := f.saved, fullScreen := false)
  }

  /** The header's `mousedown`: start dragging and raise the window, except in fullscreen. */
  function MouseDown(f: Frame): Frame
  {
    if f.fullScreen then f else f.(dragging := true, zIndex := "3000")
  }

  /** The document's `mouseup` */
  function MouseUp(f: Frame): Frame
  {
    f.(dragging := false)
  }

  /**
   * Two double-clicks from a normal window give back its style; the z-index
   * stays at the fullscreen value and the saved style is the restored one.
   */
  lemma DoubleClickTwice(f: Frame)
    requires !f.fullScreen
    ensures var r := DoubleClick(DoubleClick(f));
            r.style == f.style && !r.fullScreen && r.zIndex == "9999" && r.saved == f.style && r.dragging == f.dragging
    ensures DoubleClick(f).fullScreen && DoubleClick(f).style == Covering
  {
  }

  /** A mousedown in fullscreen changes nothing: the window cannot be dragged. */
  lemma NoDragInFullScreen(f: Frame)
    requires f.fullScreen
    ensures MouseDown(f) == f
    ensures !f.dragging ==> !MouseDown(f).dragging
  {
  }

  /** One window with its fullscreen and drag handlers. */
  class Window {
    var style: Style
    var zIndex: string
    var isFullScreen: bool
    var isDragging: bool
    var prevStyles: Style

    function State(): Frame
      reads this
    {
      Frame(style, zIndex, isFullScreen, isDragging, prevStyles)
    }

    constructor(style: Style, zIndex: string)
      ensures State() == Frame(style, zIndex, false, false, Style("", "", "", "", ""))
    {
      this.style := style;
      this.zIndex := zIndex;
      isFullScreen := false;
      isDragging := false;
      prevStyles := Style("", "", "", "", "");
    }

    method OnDoubleClick()
      modifies this
      ensures State() == DoubleClick(old(State()))
    {
      if !isFullScreen {
        prevStyles := style;
        style := Covering;
        zIndex := "9999";
        isFullScreen := true;
      } else {
        style := prevStyles;
        isFullScreen := false;
      }
    }

    method OnMouseDown()
      modifies this
      ensures State() == MouseDown(old(State()))
    {
      if isFullScreen {
        return;
      }
      isDragging := true;
      zIndex := "3000";
    }

    method OnMouseUp()
      modifies this
      ensures State() == MouseUp(old(State()))
    {
      isDragging := false;
    }
  }
}
