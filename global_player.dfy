/** The player bar (src/components/GlobalPlayer.tsx): the `m:ss` time format and the guard that
    renders nothing without a current ayah. Times are exact reals; JavaScript's floating point
    rounding is not modelled. */
module GlobalPlayer {
  import opened Optional
  import opened Text
  import Playback

  /** `Math.trunc`, which JavaScript's `%` uses on numbers. */
  function Trunc(x: real): (n: int)
    ensures x >= 0.0 ==> n == x.Floor
    ensures x < 0.0 ==> n == -((-x).Floor)
  {
    if x >= 0.0 then x.Floor else -((-x).Floor)
  }

  /** `t % 60`: the remainder takes the sign of `t`. */
  function Rem60(t: real): real {
    t - 60.0 * (Trunc(t / 60.0) as real)
  }

  /** The seconds field: a leading `'0'` below 10. */
  function SecondsText(sec: int): string {
    (if sec < 10 then "0" else "") + IntToString(sec)
  }

  /** `formatTime(t)`: `${min}:${sec < 10 ? '0' : ''}${sec}` with `min = Math.floor(t / 60)` and
      `sec = Math.floor(t % 60)`. */
  function FormatTime(t: real): string {
    var min := (t / 60.0).Floor;
    var sec := Rem60(t).Floor;
    IntToString(min) + ":" + SecondsText(sec)
  }

  /** For a time of at least 0, the minutes and seconds are the whole seconds split by 60. */
  lemma {:induction false} MinutesAndSeconds(t: real)
    requires t >= 0.0
    ensures var min, sec := (t / 60.0).Floor, Rem60(t).Floor;
      0 <= sec < 60 && min >= 0 && min * 60 + sec == t.Floor
  {
    var min := (t / 60.0).Floor;
    assert min as real <= t / 60.0 < min as real + 1.0;
    var r := Rem60(t);
    assert r == t - 60.0 * min as real;
    assert 0.0 <= r < 60.0;
    var sec := r.Floor;
    assert (min * 60 + sec) as real <= t < (min * 60 + sec + 1) as real;
  }

  /** On whole seconds `n`, the text is `n / 60`, a colon, and `n % 60` on two digits. */
  lemma {:induction false} FormatWholeSeconds(n: nat)
    ensures FormatTime(n as real) == IntToString(n / 60) + ":" + SecondsText(n % 60)
  {
    var t := n as real;
    MinutesAndSeconds(t);
    var min, sec := (t / 60.0).Floor, Rem60(t).Floor;
    assert t.Floor == n;
    assert min == n / 60 && sec == n % 60;
  }

  /** Below 60 the seconds field is exactly two digits and reads back as the seconds. */
  lemma {:induction false} SecondsTwoDigits(sec: int)
    requires 0 <= sec < 60
    ensures var s := SecondsText(sec);
      |s| == 2 && IsDigit(s[0]) && IsDigit(s[1]) && DigitsValue(s) == sec
  {
    var d := NatToString(sec);
    DigitsValueOfNatToString(sec);
    if sec < 10 {
      var s := SecondsText(sec);
      assert s == ['0'] + d;
      assert s[..1] == ['0'];
      assert s[1..] == d;
      assert DigitsValue(s) == DigitsValue(s[..1]) * 10 + DigitValue(s[1]);
    }
  }

  /** The number of `':'` characters of a concatenation. */
  lemma {:induction false} CountCharAppend(a: string, b: string, c: char)
    ensures CountChar(a + b, c) == CountChar(a, c) + CountChar(b, c)
  {
    if a != [] {
      assert (a + b)[1..] == a[1..] + b;
      CountCharAppend(a[1..], b, c);
    } else {
      assert a + b == b;
    }
  }

  lemma {:induction false} NoColonInDigits(s: string)
    requires forall k :: 0 <= k < |s| ==> IsDigit(s[k])
    ensures CountChar(s, ':') == 0
  {
    if s != [] {
      NoColonInDigits(s[1..]);
    }
  }

  /** For a time of at least 0 the text is `<minutes>:<ss>`: exactly one colon, the minutes before
      it read back by `parseInt`, and two digits after it that read back as the seconds. */
  lemma {:induction false} FormatTimeShape(t: real)
    requires t >= 0.0
    ensures var f := FormatTime(t);
      var min, sec := (t / 60.0).Floor, Rem60(t).Floor;
      var i := |IntToString(min)|;
      && |f| == i + 3 && f[i] == ':' && IsDigit(f[i + 1]) && IsDigit(f[i + 2])
      && CountChar(f, ':') == 1
      && ParseInt(f) == Some(min)
      && ParseInt(f[i + 1..]) == Some(sec)
      && min * 60 + sec == t.Floor
  {
    var min, sec := (t / 60.0).Floor, Rem60(t).Floor;
    MinutesAndSeconds(t);
    assert FormatTime(t) == IntToString(min) + ([':'] + SecondsText(sec));
    MinutesColonSeconds(min, sec);
  }

  /** `<minutes>:<ss>` from whole minutes and seconds below 60. */
  lemma {:induction false} MinutesColonSeconds(min: nat, sec: int)
    requires 0 <= sec < 60
    ensures var m, s := IntToString(min), SecondsText(sec);
      var f := m + ([':'] + s);
      && |f| == |m| + 3 && f[|m|] == ':' && IsDigit(f[|m| + 1]) && IsDigit(f[|m| + 2])
      && CountChar(f, ':') == 1
      && ParseInt(f) == Some(min)
      && ParseInt(f[|m| + 1..]) == Some(sec)
  {
    var m, s := IntToString(min), SecondsText(sec);
    SecondsTwoDigits(sec);
    JoinedShape(m, s);
    ParseIntOfIntToStringThen(min, [':'] + s);
    SecondsReadBack(sec);
  }

  lemma {:induction false} SecondsReadBack(sec: int)
    requires 0 <= sec < 60
    ensures ParseInt(SecondsText(sec)) == Some(sec)
  {
    var s := SecondsText(sec);
    SecondsTwoDigits(sec);
    ParsePositiveThen(s, []);
    assert s + [] == s;
  }

  /** `<minutes>:<ss>` built from the minutes and a two-digit seconds text. */
  lemma {:induction false} JoinedShape(m: string, s: string)
    requires forall k :: 0 <= k < |m| ==> IsDigit(m[k])
    requires |s| == 2 && IsDigit(s[0]) && IsDigit(s[1])
    ensures var f := m + ([':'] + s);
      && |f| == |m| + 3 && f[|m|] == ':' && IsDigit(f[|m| + 1]) && IsDigit(f[|m| + 2])
      && CountChar(f, ':') == 1
      && f[|m| + 1..] == s
  {
    var f := m + ([':'] + s);
    assert f[|m| + 1..] == s;
    JoinedColons(m, s);
  }

  /** Two digit strings joined by a colon hold that one colon only. */
  lemma {:induction false} JoinedColons(m: string, s: string)
    requires forall k :: 0 <= k < |m| ==> IsDigit(m[k])
    requires forall k :: 0 <= k < |s| ==> IsDigit(s[k])
    ensures CountChar(m + ([':'] + s), ':') == 1
  {
    CountCharAppend(m, [':'] + s, ':');
    CountCharAppend([':'], s, ':');
    NoColonInDigits(m);
    NoColonInDigits(s);
  }

  /** What the bar shows: the surah name, `Ayah n`, and `current / total`. */
  datatype PlayerView = PlayerView(surahName: string, ayahLabel: string, times: string)

  /** `if (!currentAyah) return null;`, then the bar for the current ayah. */
  function Render(currentAyah: Option<Playback.AudioAyah>, currentTime: real, duration: real): (r: Option<PlayerView>)
    ensures r.None? <==> currentAyah.None?
    ensures r.Some? ==> r.value.surahName == currentAyah.value.surahName
    ensures r.Some? ==> r.value.times == FormatTime(currentTime) + " / " + FormatTime(duration)
  {
    match currentAyah
    case None => None
    case Some(a) =>
      Some(PlayerView(a.surahName, "Ayah " + IntToString(a.number),
                      FormatTime(currentTime) + " / " + FormatTime(duration)))
  }
}
