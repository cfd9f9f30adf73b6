/**
  The confirmation page shown after a lead is submitted: a countdown that
  redirects to the project page when it runs out, and the WhatsApp link that
  opens a chat with the sales number.
 */
module ThankYou {
  import opened Wrappers
  import opened JsStrings
  import opened Sequences

  const InitialCountdown := 10
  const RedirectPage := "project"
  const WhatsappNumber := "+919560002261"
  const WhatsappMessage := "Hi, I just submitted an enquiry on your landing page. I would like to know more."
  const WaPrefix := "https://wa.me/"
  const TextParam := "?text="

  /** What the `setCountdown` updater produces from the previous value: the
      next value, and whether it stopped the timer and redirected. */
  datatype StepResult = StepResult(next: int, redirect: bool)

  function Step(prev: int): (r: StepResult)
    ensures r.next >= 0
    ensures r.redirect <==> r.next == 0
    ensures prev <= 1 ==> r.next == 0
    ensures prev >= 1 ==> r.next == prev - 1
  {
    if prev <= 1 then StepResult(0, true) else StepResult(prev - 1, false)
  }

  /** The page's timer: the displayed value, whether the interval is still
      installed, and how many times the timer has redirected. */
  datatype Timer = Timer(countdown: int, running: bool, redirects: nat)

  const Mounted := Timer(InitialCountdown, true, 0)

  /** One interval tick. A cleared interval delivers no ticks. */
  function Advance(t: Timer): (r: Timer)
    ensures !t.running ==> r == t
    ensures r.running ==> t.running
    ensures t.running && t.countdown >= 1 ==> r.countdown == t.countdown - 1
    ensures r.redirects == t.redirects + if t.running && !r.running then 1 else 0
  {
    if !t.running then t
    else
      var s := Step(t.countdown);
      Timer(s.next, !s.redirect, t.redirects + if s.redirect then 1 else 0)
  }

  /** `n` ticks in a row. */
  function Run(t: Timer, n: nat): (r: Timer)
    decreases n
  {
    if n == 0 then t else Run(Advance(t), n - 1)
  }

  /** The states the timer can reach from the mounted state. */
  predicate Reachable(t: Timer) {
    && 0 <= t.countdown <= InitialCountdown
    && t.redirects <= 1
    && (t.redirects == 1 <==> t.countdown == 0)
    && (t.running ==> t.countdown >= 1)
  }

  /** A tick keeps the timer in a reachable state. */
  lemma AdvancePreservesReachable(t: Timer)
    requires Reachable(t)
    ensures Reachable(Advance(t))
    ensures t.running ==> Advance(t).countdown == t.countdown - 1
  {
  }

  /** Once the interval is cleared, further ticks change nothing. */
  lemma {:induction false} StoppedStaysPut(t: Timer, n: nat)
    requires !t.running
    ensures Run(t, n) == t
  {
    if n > 0 {
      StoppedStaysPut(t, n - 1);
    }
  }

  /** From a running value `c`, the countdown goes down by one per tick; the
      `c`-th tick sets it to 0, stops the timer and redirects once; later ticks
      change nothing. */
  lemma {:induction false} RunFrom(c: int, n: nat)
    requires c >= 1
    ensures Run(Timer(c, true, 0), n) ==
      if n < c then Timer(c - n, true, 0) else Timer(0, false, 1)
  {
    if n > 0 {
      if c == 1 {
        StoppedStaysPut(Timer(0, false, 1), n - 1);
      } else {
        RunFrom(c - 1, n - 1);
      }
    }
  }

  /** From the mounted value 10: the countdown is never negative, it drops by
      one on each of the first ten ticks, the redirect happens exactly once, on
      the tenth tick, and nothing moves afterwards. */
  lemma CountdownFromTen(n: nat)
    ensures Run(Mounted, n).countdown >= 0
    ensures n < InitialCountdown ==> Run(Mounted, n + 1).countdown == Run(Mounted, n).countdown - 1
    ensures Run(Mounted, n).redirects == if n >= InitialCountdown then 1 else 0
    ensures Run(Mounted, n).running <==> n < InitialCountdown
    ensures n >= InitialCountdown ==> Run(Mounted, n) == Timer(0, false, 1)
  {
    RunFrom(InitialCountdown, n);
    RunFrom(InitialCountdown, n + 1);
  }

  /** The countdown as the page holds it. */
  class RedirectCountdown {
    var countdown: int
    var running: bool
    var redirects: nat

    function State(): (t: Timer)
      reads this
    {
      Timer(countdown, running, redirects)
    }

    /** Mounting: `useState(10)` and the interval is installed. */
    constructor ()
      ensures State() == Mounted && Reachable(State())
    {
      countdown, running, redirects := InitialCountdown, true, 0;
    }

    /** One interval tick: the updater runs; at 1 or below it clears the
        interval and navigates to the project page. */
    method Tick() returns (navigate: Option<string>)
      modifies this
      ensures State() == Advance(old(State()))
      ensures navigate == if old(running) && old(countdown) <= 1 then Some(RedirectPage) else None
      ensures old(Reachable(State())) ==> Reachable(State())
    {
      navigate := None;
      if running {
        if countdown <= 1 {
          running := false;
          navigate := Some(RedirectPage);
          redirects := redirects + 1;
          countdown := 0;
        } else {
          countdown := countdown - 1;
        }
      }
    }

    /** The effect's cleanup: the interval is cleared when the page goes away. */
    method Unmount()
      modifies this`running
      ensures !running
      ensures old(Reachable(State())) ==> Reachable(State())
    {
      running := false;
    }
  }

  predicate IsDigit(c: char) {
    '0' <= c <= '9'
  }

  /** `s.replace(/\D/g, "")`: every character outside '0'..'9' removed. */
  function StripNonDigits(s: string): (r: string)
    ensures |r| <= |s|
    ensures forall i :: 0 <= i < |r| ==> IsDigit(r[i])
  {
    if s == [] then []
    else (if IsDigit(s[0]) then [s[0]] else []) + StripNonDigits(s[1..])
  }

  /** The result is the input with the non-digits deleted: a subsequence of it
      holding every digit of it, each as many times. */
  lemma {:induction false} StripKeepsDigits(s: string)
    ensures IsSubsequence(StripNonDigits(s), s)
    ensures forall c :: IsDigit(c) ==> multiset(StripNonDigits(s))[c] == multiset(s)[c]
  {
    if s != [] {
      StripKeepsDigits(s[1..]);
      var rest := StripNonDigits(s[1..]);
      if IsDigit(s[0]) {
        var r := StripNonDigits(s);
        assert r == [s[0]] + rest;
        assert r[0] == s[0] && r[1..] == rest;
      } else {
        assert StripNonDigits(s) == rest;
      }
      assert multiset(s) == multiset{s[0]} + multiset(s[1..]) by {
        assert s == [s[0]] + s[1..];
      }
    }
  }

  /** Stripping splits over concatenation. */
  lemma {:induction false} StripAppend(a: string, b: string)
    ensures StripNonDigits(a + b) == StripNonDigits(a) + StripNonDigits(b)
  {
    if a != [] {
      assert (a + b)[0] == a[0];
      assert (a + b)[1..] == a[1..] + b;
      StripAppend(a[1..], b);
      var head := if IsDigit(a[0]) then [a[0]] else [];
      assert StripNonDigits(a + b) == head + StripNonDigits(a[1..] + b);
      assert StripNonDigits(a) == head + StripNonDigits(a[1..]);
    } else {
      assert a + b == b;
    }
  }

  /** A string of digits is left as it is. */
  lemma {:induction false} StripDigitsOnly(s: string)
    requires forall i :: 0 <= i < |s| ==> IsDigit(s[i])
    ensures StripNonDigits(s) == s
  {
    if s != [] {
      StripDigitsOnly(s[1..]);
    }
  }

  /** Stripping twice is stripping once. */
  lemma StripIdempotent(s: string)
    ensures StripNonDigits(StripNonDigits(s)) == StripNonDigits(s)
  {
    StripDigitsOnly(StripNonDigits(s));
  }

  /** An international number written as '+' and digits loses only the '+'. */
  lemma StripPlusPrefixed(digits: string)
    requires forall i :: 0 <= i < |digits| ==> IsDigit(digits[i])
    ensures StripNonDigits(['+'] + digits) == digits
  {
    assert (['+'] + digits)[1..] == digits;
    StripDigitsOnly(digits);
  }

  /** The page's number, +919560002261, becomes 919560002261. */
  lemma StripWhatsappNumber(number: string)
    requires number == WhatsappNumber
    ensures StripNonDigits(number) == "919560002261"
  {
    assert number == ['+'] + "919560002261";
    StripPlusPrefixed("919560002261");
  }

  /** The characters of `s` before the first `stop` (all of `s` if there is none). */
  function TakeUntil(s: string, stop: char): (r: string)
    ensures |r| <= |s| && r == s[..|r|] && stop !in r
    ensures |r| < |s| ==> s[|r|] == stop
  {
    if s == [] || s[0] == stop then [] else [s[0]] + TakeUntil(s[1..], stop)
  }

  /** The phone number a chat link points at: what lies between the prefix and the first '?'. */
  function LinkPhone(link: string): (phone: string) {
    if WaPrefix <= link then TakeUntil(link[|WaPrefix|..], '?') else ""
  }

  lemma {:induction false} TakeUntilDelimited(d: string, stop: char, rest: string)
    requires stop !in d
    ensures TakeUntil(d + [stop] + rest, stop) == d
  {
    if d != [] {
      assert (d + [stop] + rest)[1..] == d[1..] + [stop] + rest;
      TakeUntilDelimited(d[1..], stop, rest);
    }
  }

  /** The chat link; `encode` stands for `encodeURIComponent`. It starts with
      the WhatsApp prefix, points at exactly the digits of the number, and ends
      with the encoded message, whatever the encoder does; the number and the
      message are joined by the `?text=` parameter. */
  function WhatsAppLink(number: string, message: string, encode: string -> string): (link: string)
    ensures WaPrefix <= link
    ensures LinkPhone(link) == StripNonDigits(number)
    ensures |link| >= |encode(message)| && link[|link| - |encode(message)|..] == encode(message)
    ensures |WaPrefix| + |StripNonDigits(number)| <= |link|
    ensures link[|WaPrefix| + |StripNonDigits(number)|..] == TextParam + encode(message)
  {
    var digits := StripNonDigits(number);
    var rest := TextParam[1..] + encode(message);
    var link := WaPrefix + digits + TextParam + encode(message);
    assert forall i :: 0 <= i < |digits| ==> digits[i] != '?';
    TakeUntilDelimited(digits, '?', rest);
    assert link == WaPrefix + (digits + ['?'] + rest);
    assert link[|WaPrefix|..] == digits + ['?'] + rest;
    link
  }

  /** `handleWhatsAppClick`: the link opened in a new tab points at 919560002261
      and carries the fixed enquiry message. */
  function ClickLink(encode: string -> string): (link: string)
    ensures LinkPhone(link) == "919560002261"
    ensures link == WaPrefix + "919560002261" + TextParam + encode(WhatsappMessage)
  {
    var number := WhatsappNumber;
    StripWhatsappNumber(number);
    WhatsAppLink(number, WhatsappMessage, encode)
  }
}
