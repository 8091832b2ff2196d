/** The presentation helpers of the browser client: status names and classes,
    runtime and year formatting. */
module Format {
  import opened Wrappers
  import opened Decimal

  /** One entry of the status picker; `name` is its `label` field. */
  datatype StatusOption = StatusOption(value: string, name: string, color: string)

  const STATUS_OPTIONS: seq<StatusOption> := [
    StatusOption("plan_to_watch", "Plan to Watch", "amber"),
    StatusOption("watching", "Watching", "blue"),
    StatusOption("watched", "Watched", "emerald")
  ]

  /** The CSS class of each known status; any other key has no class. */
  const STATUS_CLASSES: map<string, string> := map[
    "plan_to_watch" := "status-plan-to-watch",
    "watching" := "status-watching",
    "watched" := "status-watched"
  ]

  predicate IsKnownStatus(status: string) {
    status == "plan_to_watch" || status == "watching" || status == "watched"
  }

  /** `opts.find(s => s.value === status)`: the first option with that value. */
  function FindOption(opts: seq<StatusOption>, status: string): (r: Option<StatusOption>)
    ensures r.None? <==> forall i :: 0 <= i < |opts| ==> opts[i].value != status
    ensures r.Some? ==> exists k :: 0 <= k < |opts| && opts[k] == r.value && opts[k].value == status &&
                                    forall j :: 0 <= j < k ==> opts[j].value != status
  {
    if opts == [] then None
    else if opts[0].value == status then Some(opts[0])
    else
      var r := FindOption(opts[1..], status);
      assert r.Some? ==> exists k :: 0 <= k < |opts| && opts[k] == r.value && opts[k].value == status &&
                                     forall j :: 0 <= j < k ==> opts[j].value != status by {
        if r.Some? {
          var k :| 0 <= k < |opts| - 1 && opts[1..][k] == r.value && opts[1..][k].value == status &&
                   forall j :: 0 <= j < k ==> opts[1..][j].value != status;
          assert opts[k + 1] == r.value;
          assert forall j :: 0 <= j < k + 1 ==> opts[j].value != status by {
            forall j | 0 <= j < k + 1 ensures opts[j].value != status {
              if j > 0 { assert opts[j] == opts[1..][j - 1]; }
            }
          }
        }
      }
      r
  }

  /** `getStatusLabel`: the picker label of a known status, the status itself otherwise. */
  function StatusLabel(status: string): (r: string)
    ensures status == "plan_to_watch" ==> r == "Plan to Watch"
    ensures status == "watching" ==> r == "Watching"
    ensures status == "watched" ==> r == "Watched"
    ensures !IsKnownStatus(status) ==> r == status
  {
    match FindOption(STATUS_OPTIONS, status)
    case Some(opt) => if opt.name != "" then opt.name else status
    case None => status
  }

  /** `getStatusClass`: the CSS class of a known status, `''` otherwise. */
  function StatusClass(status: string): (r: string)
    ensures status == "plan_to_watch" ==> r == "status-plan-to-watch"
    ensures status == "watching" ==> r == "status-watching"
    ensures status == "watched" ==> r == "status-watched"
    ensures r == "" <==> !IsKnownStatus(status)
  {
    if status in STATUS_CLASSES && STATUS_CLASSES[status] != "" then STATUS_CLASSES[status] else ""
  }

  /** The label table and the class table know the same statuses. */
  lemma StatusTablesAgree(status: string)
    ensures FindOption(STATUS_OPTIONS, status).Some? <==> StatusClass(status) != ""
    ensures StatusClass(status) != "" <==> StatusLabel(status) != status
  {
    if !IsKnownStatus(status) {
      assert forall i :: 0 <= i < |STATUS_OPTIONS| ==> STATUS_OPTIONS[i].value != status;
    } else {
      assert STATUS_OPTIONS[0].value == "plan_to_watch";
      assert STATUS_OPTIONS[1].value == "watching";
      assert STATUS_OPTIONS[2].value == "watched";
    }
  }

  /** JavaScript `a % b` for a positive divisor: the sign follows the dividend. */
  function JsRem(a: int, b: int): (r: int)
    requires b > 0
    ensures a >= 0 ==> 0 <= r < b
    ensures a < 0 ==> -b < r <= 0
    ensures a == b * JsQuot(a, b) + r
  {
    if a >= 0 then a % b else
      var q := (-a) / b;
      assert -a == b * q + (-a) % b;
      assert b * (-q) == -(b * q);
      -((-a) % b)
  }

  /** The quotient rounded toward zero, which JavaScript's `%` pairs with. */
  function JsQuot(a: int, b: int): int
    requires b > 0
  {
    if a >= 0 then a / b else -((-a) / b)
  }

  /** `formatRuntime`: `''` for a missing or zero runtime, otherwise `"{h}h {m}m"`,
      or `"{m}m"` when there is no whole hour. `Math.floor(m / 60)` is Dafny's
      `/` for the positive divisor 60; `%` is JavaScript's truncating remainder. */
  function FormatRuntime(minutes: Option<int>): (r: string)
    ensures r == "" <==> minutes.None? || minutes.value == 0
    ensures minutes.Some? && minutes.value >= 60 ==>
              r == NatToString(minutes.value / 60) + "h " + NatToString(minutes.value % 60) + "m"
    ensures minutes.Some? && 0 < minutes.value < 60 ==> r == NatToString(minutes.value) + "m"
    ensures minutes.Some? && minutes.value < 0 ==> r == IntToString(JsRem(minutes.value, 60)) + "m"
  {
    if minutes.None? || minutes.value == 0 then ""
    else
      var hours := minutes.value / 60;
      var mins := JsRem(minutes.value, 60);
      if hours > 0 then IntToString(hours) + "h " + IntToString(mins) + "m"
      else IntToString(mins) + "m"
  }

  /** The first index of `c` in `s`, or `|s|` when it does not occur. */
  function IndexOfChar(s: string, c: char): (k: nat)
    ensures k <= |s|
    ensures k < |s| ==> s[k] == c
    ensures forall j :: 0 <= j < k ==> s[j] != c
  {
    if s == [] then 0 else if s[0] == c then 0 else 1 + IndexOfChar(s[1..], c)
  }

  /** Reads a runtime text of the form `"{h}h {m}m"` or `"{m}m"` back into minutes. */
  function ParseRuntime(s: string): Option<int> {
    if |s| == 0 || s[|s| - 1] != 'm' then None else ParseRuntimeBody(s[..|s| - 1])
  }

  function ParseRuntimeBody(body: string): Option<int> {
    var k := IndexOfChar(body, 'h');
    if k == |body| then ParseMinutesText(body) else ParseHoursText(body[..k], body[k + 1..])
  }

  function ParseMinutesText(t: string): Option<int> {
    if t != "" && AllDigits(t) then Some(DigitsValue(t)) else None
  }

  function ParseHoursText(h: string, rest: string): Option<int> {
    if |rest| >= 1 && rest[0] == ' ' && AllDigits(h) && AllDigits(rest[1..]) then
      Some(DigitsValue(h) * 60 + DigitsValue(rest[1..]))
    else None
  }

  /** A digit string holds no 'h', so the first 'h' of `"{h}h ..."` ends the hours. */
  lemma IndexOfHAfterDigits(digits: string, rest: string)
    requires AllDigits(digits)
    ensures IndexOfChar(digits + "h" + rest, 'h') == |digits|
  {
    var body := digits + "h" + rest;
    assert body[|digits|] == 'h';
    assert forall j :: 0 <= j < |digits| ==> body[j] == digits[j];
  }

  lemma ParseRuntimeStripsM(body: string)
    ensures ParseRuntime(body + "m") == ParseRuntimeBody(body)
  {
    assert (body + "m")[..|body|] == body;
  }

  lemma ParseHoursTextOf(h: string, mn: string)
    requires AllDigits(h) && AllDigits(mn)
    ensures ParseHoursText(h, " " + mn) == Some(DigitsValue(h) * 60 + DigitsValue(mn))
  {
    var rest := " " + mn;
    assert rest[1..] == mn;
  }

  lemma ParseHoursForm(h: string, mn: string)
    requires |h| >= 1 && AllDigits(h) && |mn| >= 1 && AllDigits(mn)
    ensures ParseRuntime(h + "h " + mn + "m") == Some(DigitsValue(h) * 60 + DigitsValue(mn))
  {
    var body := h + "h" + (" " + mn);
    assert h + "h " + mn + "m" == body + "m";
    ParseRuntimeStripsM(body);
    IndexOfHAfterDigits(h, " " + mn);
    assert body[..|h|] == h;
    assert body[|h| + 1..] == " " + mn;
    ParseHoursTextOf(h, mn);
  }

  lemma ParseMinutesForm(mn: string)
    requires |mn| >= 1 && AllDigits(mn)
    ensures ParseRuntime(mn + "m") == Some(DigitsValue(mn))
  {
    var s := mn + "m";
    assert s[..|s| - 1] == mn;
    assert forall j :: 0 <= j < |mn| ==> mn[j] != 'h';
  }

  /** The hours and minutes that `FormatRuntime` prints recombine to the runtime:
      reading the text back gives `h * 60 + m` with `m < 60`, which is the input. */
  lemma RuntimeRoundTrip(m: int)
    requires m > 0
    ensures ParseRuntime(FormatRuntime(Some(m))) == Some(m)
  {
    if m >= 60 {
      var h, mins := m / 60, m % 60;
      assert h * 60 + mins == m;
      assert FormatRuntime(Some(m)) == NatToString(h) + "h " + NatToString(mins) + "m";
      DigitsValueOfNatToString(h);
      DigitsValueOfNatToString(mins);
      ParseHoursForm(NatToString(h), NatToString(mins));
    } else {
      assert FormatRuntime(Some(m)) == NatToString(m) + "m";
      DigitsValueOfNatToString(m);
      ParseMinutesForm(NatToString(m));
    }
  }

  /** `formatYear`: `''` for a missing or empty date, otherwise its first four
      characters (fewer when the text is shorter). */
  function FormatYear(date: Option<string>): (r: string)
    ensures r == "" <==> date.None? || date.value == ""
    ensures date.Some? ==> r <= date.value && |r| == if |date.value| < 4 then |date.value| else 4
  {
    if date.None? || date.value == "" then ""
    else if |date.value| < 4 then date.value
    else date.value[..4]
  }
}
