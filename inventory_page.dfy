/** The inventory page's expiry logic: the badge `getExpiryStatus` computes for
    one expiry date, and the "Items Expiring Soon" alert built from the
    expiring-items query. The page reads the clock once per render; here the
    current time is the parameter `now`. */
module InventoryPage {
  import opened Wrappers
  import opened Schema
  import UserInventory

  // ================================================================ whole days until expiry

  /** `Math.ceil((expiryDate - now) / DayMs)`, with exact integer arithmetic:
      the least whole number of days that reaches the expiry date. */
  function DaysUntilExpiry(expiry: int, now: int): (days: int)
    ensures (days - 1) * DayMs < expiry - now <= days * DayMs
  {
    -((now - expiry) / DayMs)
  }

  /** The bracket above pins the day count down: it is the ceiling. */
  lemma DaysUntilExpiryIsCeiling(expiry: int, now: int, n: int)
    requires (n - 1) * DayMs < expiry - now <= n * DayMs
    ensures n == DaysUntilExpiry(expiry, now)
  {
  }

  // ================================================================ decimal text

  function DigitChar(d: nat): char
    requires d < 10
  {
    ('0' as int + d) as char
  }

  /** `${n}` for a non-negative integer: its decimal digits, no leading zero. */
  function DecimalString(n: nat): (s: string)
    ensures |s| >= 1
    ensures forall i :: 0 <= i < |s| ==> '0' <= s[i] <= '9'
    ensures s[0] == '0' ==> n == 0
    decreases n
  {
    if n < 10 then [DigitChar(n)]
    else DecimalString(n / 10) + [DigitChar(n % 10)]
  }

  /** The number a string of decimal digits denotes. */
  function DecimalValue(s: string): int
    decreases |s|
  {
    if |s| == 0 then 0
    else 10 * DecimalValue(s[..|s| - 1]) + (s[|s| - 1] as int - '0' as int)
  }

  /** The decimal text of a day count reads back as that count. */
  lemma {:induction false} DecimalRoundTrip(n: nat)
    ensures DecimalValue(DecimalString(n)) == n
    decreases n
  {
    if n >= 10 {
      DecimalRoundTrip(n / 10);
      var s := DecimalString(n);
      assert s[..|s| - 1] == DecimalString(n / 10);
    }
  }

  // ================================================================ the badge

  datatype Status = NoDate | Expired | Critical | Warning | Caution | Good

  /** What the badge shows: the status, its colour and its text. */
  datatype Badge = Badge(status: Status, color: string, text: string)

  /** The status names the page uses. */
  function StatusName(s: Status): string {
    match s
    case NoDate => "no-date"
    case Expired => "expired"
    case Critical => "critical"
    case Warning => "warning"
    case Caution => "caution"
    case Good => "good"
  }

  /** Urgency order: a lower rank is more urgent; undated ranks last. */
  function Rank(s: Status): nat {
    match s
    case Expired => 0
    case Critical => 1
    case Warning => 2
    case Caution => 3
    case Good => 4
    case NoDate => 5
  }

  function DaysLeftText(days: int): string
    requires days >= 0
  {
    DecimalString(days) + " days left"
  }

  /** `getExpiryStatus`: a falsy date (absent or 0) has no badge date;
      otherwise the whole-day count `days` picks the band: below 0 expired,
      up to 1 critical, up to 3 warning, up to 7 caution, beyond that good. In
      milliseconds to expiry, `d = expiry - now`, the bands are
      `d <= -1 day`, `-1 day < d <= 1 day`, `1 < d <= 3`, `3 < d <= 7` and `7 < d`. */
  function GetExpiryStatus(expiryDate: Option<int>, now: int): (b: Badge)
    ensures b.status == NoDate <==> !Truthy(expiryDate)
    ensures b.status == NoDate ==> b == Badge(NoDate, "gray", "No expiry date")
    ensures Truthy(expiryDate) ==>
      var d := expiryDate.value - now;
      && (b.status == Expired <==> d <= -DayMs)
      && (b.status == Critical <==> -DayMs < d <= DayMs)
      && (b.status == Warning <==> DayMs < d <= 3 * DayMs)
      && (b.status == Caution <==> 3 * DayMs < d <= 7 * DayMs)
      && (b.status == Good <==> 7 * DayMs < d)
    ensures b.status == Expired ==> b.color == "red" && b.text == "Expired"
    ensures b.status == Critical ==> b.color == "red" && b.text == "Expires today"
    ensures b.status == Warning ==> b.color == "orange"
    ensures b.status == Caution ==> b.color == "yellow"
    ensures b.status == Good ==> b.color == "green"
  {
    if !Truthy(expiryDate) then Badge(NoDate, "gray", "No expiry date")
    else
      var days := DaysUntilExpiry(expiryDate.value, now);
      if days < 0 then Badge(Expired, "red", "Expired")
      else if days <= 1 then Badge(Critical, "red", "Expires today")
      else if days <= 3 then Badge(Warning, "orange", DaysLeftText(days))
      else if days <= 7 then Badge(Caution, "yellow", DaysLeftText(days))
      else Badge(Good, "green", DaysLeftText(days))
  }

  /** The warning, caution and good badges show the whole-day count, at least
      2, as "N days left", and N reads back as the ceiling of the days to expiry. */
  lemma BadgeTextShowsDays(expiry: int, now: int)
    requires expiry != 0
    ensures var b := GetExpiryStatus(Some(expiry), now);
      b.status in {Warning, Caution, Good} ==>
        var n := DaysUntilExpiry(expiry, now);
        && n >= 2
        && b.text == DecimalString(n) + " days left"
        && DecimalValue(b.text[..|b.text| - |" days left"|]) == n
  {
    var b := GetExpiryStatus(Some(expiry), now);
    var n := DaysUntilExpiry(expiry, now);
    if b.status in {Warning, Caution, Good} {
      assert b.text[..|b.text| - |" days left"|] == DecimalString(n);
      DecimalRoundTrip(n);
    }
  }

  /** A later expiry date (at the same time) is never more urgent. */
  lemma StatusMonotone(e1: int, e2: int, now: int)
    requires e1 != 0 && e2 != 0 && e1 <= e2
    ensures Rank(GetExpiryStatus(Some(e1), now).status) <= Rank(GetExpiryStatus(Some(e2), now).status)
  {
  }

  /** Time passing never makes a badge less urgent. */
  lemma StatusWorsensOverTime(expiry: int, t1: int, t2: int)
    requires expiry != 0 && t1 <= t2
    ensures Rank(GetExpiryStatus(Some(expiry), t2).status) <= Rank(GetExpiryStatus(Some(expiry), t1).status)
  {
  }

  /** An item that expired one millisecond ago shows "Expires today", not
      "Expired": a whole day must have passed before it counts as expired. */
  lemma JustExpiredIsCritical(expiry: int)
    requires expiry != 0
    ensures GetExpiryStatus(Some(expiry), expiry + 1) == Badge(Critical, "red", "Expires today")
    ensures GetExpiryStatus(Some(expiry), expiry + DayMs) == Badge(Expired, "red", "Expired")
  {
  }

  /** The falsy date 0 is shown as undated. */
  lemma ZeroDateIsUndated(now: int)
    ensures GetExpiryStatus(Some(0), now) == Badge(NoDate, "gray", "No expiry date")
  {
  }

  /** The expiring-items window coincides with the three most urgent badges:
      a dated row is within three days of `now` exactly when its badge is
      expired, critical or warning; and within seven days exactly when it is
      one of those or caution (the stats' week window). */
  lemma WindowsMatchBadges(expiry: int, now: int)
    requires expiry != 0
    ensures expiry <= now + 3 * DayMs <==> GetExpiryStatus(Some(expiry), now).status in {Expired, Critical, Warning}
    ensures expiry <= now + 7 * DayMs <==> GetExpiryStatus(Some(expiry), now).status in {Expired, Critical, Warning, Caution}
  {
  }

  /** The badge variant the inventory card picks from the status string. */
  function Variant(status: string): string {
    if status == "expired" || status == "critical" then "destructive"
    else if status == "warning" then "secondary"
    else "outline"
  }

  /** The status strings are distinct, so the page's string tests tell the
      statuses apart. */
  lemma StatusNameInjective(s: Status, t: Status)
    ensures StatusName(s) == StatusName(t) <==> s == t
  {
  }

  /** The card is destructive for expired and critical badges, that is, for a
      dated row due within a day; secondary for warning; outline otherwise. */
  lemma VariantByStatus(expiryDate: Option<int>, now: int)
    ensures var b := GetExpiryStatus(expiryDate, now);
      var v := Variant(StatusName(b.status));
      && (v == "destructive" <==> b.status in {Expired, Critical})
      && (v == "secondary" <==> b.status == Warning)
      && (v == "outline" <==> b.status in {Caution, Good, NoDate})
      && (v == "destructive" <==> Truthy(expiryDate) && expiryDate.value - now <= DayMs)
  {
  }

  // ================================================================ the alert

  /** One line of the alert: the ingredient's name (absent when the join found
      nothing) and the badge text. */
  datatype AlertLine = AlertLine(name: Option<string>, badge: string)

  /** The alert card: the first lines and, past three items, the "+N more" count. */
  datatype Alert = Alert(lines: seq<AlertLine>, more: Option<nat>)

  function LineFor(v: UserInventory.InventoryView, now: int): AlertLine {
    AlertLine(if v.ingredient.Some? then Some(v.ingredient.value.name) else None,
              GetExpiryStatus(v.item.expiryDate, now).text)
  }

  /** The "Items Expiring Soon" card: absent for an empty list; otherwise the
      first three items in list order, and "+N more" exactly when more than
      three, where the lines shown and N account for every item. */
  function ExpiringAlert(items: seq<UserInventory.InventoryView>, now: int): (r: Option<Alert>)
    ensures r.None? <==> |items| == 0
    ensures r.Some? ==> |r.value.lines| == (if |items| < 3 then |items| else 3)
    ensures r.Some? ==> forall i :: 0 <= i < |r.value.lines| ==> r.value.lines[i] == LineFor(items[i], now)
    ensures r.Some? ==> (r.value.more.Some? <==> |items| > 3)
    ensures r.Some? && r.value.more.Some? ==> |r.value.lines| + r.value.more.value == |items|
  {
    if |items| == 0 then None
    else
      var shown := if |items| < 3 then items else items[..3];
      Some(Alert(seq(|shown|, i requires 0 <= i < |shown| => LineFor(shown[i], now)),
                 if |items| > 3 then Some(|items| - 3) else None))
  }
}
