/**
 * The throttle of `AlertService` (app/services/alert_service.py): one
 * alert per "severity:type" key per severity window, with a count of the
 * alerts suppressed inside the window. Times are integer microseconds
 * (`datetime` resolution); `datetime.now()` is the parameter `now`.
 */
module Alerts {
  import opened Wrappers
  import opened Text

  const Critical: string := "critical"
  const High: string := "high"
  const Medium: string := "medium"
  const Low: string := "low"

  const MicrosPerMinute: int := 60 * 1000 * 1000

  /** `throttle_minutes.get(severity, 30)` */
  function WindowMinutes(severity: string): nat {
    if severity == Critical then 5
    else if severity == High then 15
    else if severity == Medium then 30
    else if severity == Low then 60
    else 30
  }

  function Window(severity: string): int {
    WindowMinutes(severity) * MicrosPerMinute
  }

  /** The four windows, and 30 minutes for a severity outside the table. */
  lemma WindowTable(severity: string)
    ensures WindowMinutes(Critical) == 5 && WindowMinutes(High) == 15
    ensures WindowMinutes(Medium) == 30 && WindowMinutes(Low) == 60
    ensures severity !in [Critical, High, Medium, Low] ==> WindowMinutes(severity) == 30
    ensures Window(severity) > 0
  {
    assert Critical != High && Critical != Medium && Critical != Low && High != Medium && High != Low && Medium != Low by {
      assert Critical[0] == 'c' && High[0] == 'h' && Medium[0] == 'm' && Low[0] == 'l';
    }
  }

  /** The throttle key `f"{severity}:{alert_type}"`. */
  function Key(alertType: string, severity: string): string {
    severity + ":" + alertType
  }

  /** Severities without ':' (the four constants have none) give distinct keys to distinct pairs. */
  lemma KeyInjective(t1: string, s1: string, t2: string, s2: string)
    requires ':' !in s1 && ':' !in s2
    ensures Key(t1, s1) == Key(t2, s2) <==> t1 == t2 && s1 == s2
  {
    if Key(t1, s1) == Key(t2, s2) {
      var k := Key(t1, s1);
      assert forall i :: 0 <= i < |s1| ==> k[i] == s1[i] && k[i] != ':';
      assert forall i :: 0 <= i < |s2| ==> k[i] == s2[i] && k[i] != ':';
      assert k[|s1|] == ':' && k[|s2|] == ':';
      assert |s1| == |s2|;
      assert s1 == k[..|s1|] == s2;
      assert t1 == k[|s1| + 1..] == t2;
    }
  }

  /** `_last_alert_time` and `_alert_counts` (a `defaultdict(int)`: a missing key counts 0). */
  datatype Throttle = Throttle(last: map<string, int>, counts: map<string, nat>)

  function Count(counts: map<string, nat>, key: string): nat {
    if key in counts then counts[key] else 0
  }

  /** `_should_send_alert` on an enabled service: the decision and the new throttle state. */
  function Decide(s: Throttle, alertType: string, severity: string, now: int): (bool, Throttle) {
    var key := Key(alertType, severity);
    if key in s.last && now - s.last[key] < Window(severity) then
      (false, s.(counts := s.counts[key := Count(s.counts, key) + 1]))
    else
      (true, s.(last := s.last[key := now]))
  }

  /** The first alert for a key is sent and stamps `now`. */
  lemma FirstAlertSent(s: Throttle, alertType: string, severity: string, now: int)
    requires Key(alertType, severity) !in s.last
    ensures var (send, s') := Decide(s, alertType, severity, now);
      send && s'.last == s.last[Key(alertType, severity) := now] && s'.counts == s.counts
  {
  }

  /**
   * After an alert is sent, a repeat inside its severity's window is
   * suppressed: it keeps the stamp and adds one to the key's count; once
   * the window has passed the repeat is sent and re-stamped.
   */
  lemma RepeatThrottled(s: Throttle, alertType: string, severity: string, t1: int, t2: int)
    requires Decide(s, alertType, severity, t1).0
    ensures var s1 := Decide(s, alertType, severity, t1).1;
      var key := Key(alertType, severity);
      var (send, s2) := Decide(s1, alertType, severity, t2);
      && (t1 <= t2 < t1 + Window(severity) ==>
            !send && s2.last == s1.last && s2.last[key] == t1
            && s2.counts == s1.counts[key := Count(s1.counts, key) + 1])
      && (t2 >= t1 + Window(severity) ==> send && s2.last == s1.last[key := t2] && s2.counts == s1.counts)
  {
  }

  /** An alert under one key neither stamps nor counts another key. */
  lemma KeysIndependent(s: Throttle, type1: string, sev1: string, type2: string, sev2: string, t1: int, t2: int)
    requires Key(type1, sev1) != Key(type2, sev2)
    ensures var s1 := Decide(s, type1, sev1, t1).1;
      var key := Key(type2, sev2);
      && Decide(s1, type2, sev2, t2).0 == Decide(s, type2, sev2, t2).0
      && (key in s1.last <==> key in s.last) && (key in s.last ==> s1.last[key] == s.last[key])
      && Count(s1.counts, key) == Count(s.counts, key)
  {
  }

  /** What one part contributes: its stripped text when that is not empty. */
  function RecipientOf(part: string): (r: seq<string>)
    ensures |r| <= 1
  {
    var e := Strip(part);
    if |e| > 0 then [e] else []
  }

  /** `[email.strip() for email in parts if email.strip()]` */
  function Recipients(parts: seq<string>): (r: seq<string>)
    ensures |r| <= |parts|
  {
    if parts == [] then [] else RecipientOf(parts[0]) + Recipients(parts[1..])
  }

  /** Recipients are exactly the non-empty stripped parts. */
  lemma {:induction false} RecipientsMembers(parts: seq<string>)
    ensures forall e :: e in Recipients(parts) <==> exists p :: p in parts && Strip(p) == e && |e| > 0
    decreases |parts|
  {
    if parts != [] {
      RecipientsMembers(parts[1..]);
      assert forall p :: p in parts <==> p == parts[0] || p in parts[1..];
    }
  }

  /**
   * The list comprehension keeps input order: the recipients of two runs of
   * parts are those of the first followed by those of the second.
   */
  lemma {:induction false} RecipientsInOrder(a: seq<string>, b: seq<string>)
    ensures Recipients(a + b) == Recipients(a) + Recipients(b)
    decreases |a|
  {
    if a == [] {
      assert a + b == b;
    } else {
      var ab := a + b;
      assert ab[0] == a[0] && ab[1..] == a[1..] + b;
      RecipientsInOrder(a[1..], b);
      calc {
        Recipients(ab);
        RecipientOf(a[0]) + Recipients(a[1..] + b);
        RecipientOf(a[0]) + (Recipients(a[1..]) + Recipients(b));
        Recipients(a) + Recipients(b);
      }
    }
  }

  /** Recipients are non-blank, carry no surrounding whitespace and contain no comma. */
  lemma RecipientsWellFormed(config: string)
    ensures forall e :: e in Recipients(Split(config, ',')) ==> e != [] && Strip(e) == e && ',' !in e
  {
    RecipientsClean(Split(config, ','));
  }

  /** Parts free of commas give recipients that are non-blank, trimmed and free of commas. */
  lemma {:induction false} RecipientsClean(parts: seq<string>)
    requires forall i :: 0 <= i < |parts| ==> ',' !in parts[i]
    ensures forall e :: e in Recipients(parts) ==> e != [] && Strip(e) == e && ',' !in e
    decreases |parts|
  {
    if parts != [] {
      var head := Strip(parts[0]);
      RecipientsClean(parts[1..]);
      StripClean(parts[0]);
      forall e | e in RecipientOf(parts[0]) ensures e != [] && Strip(e) == e && ',' !in e {
        assert e == head;
      }
    }
  }

  /** Stripping a comma-free string gives a trimmed, comma-free string. */
  lemma StripClean(part: string)
    requires ',' !in part
    ensures Strip(Strip(part)) == Strip(part) && ',' !in Strip(part)
  {
    StripIdempotent(part);
    StripInside(part);
  }

  /** Stripping only removes characters, so it adds no comma. */
  lemma StripInside(s: string)
    ensures forall c :: c in Strip(s) ==> c in s
  {
    var l := TrimLeft(s, IsSpace);
    var off := |s| - |l|;
    assert Strip(s) == s[off..off + |TrimRight(l, IsSpace)|];
    SliceInside(s, off, off + |TrimRight(l, IsSpace)|);
  }

  /** A slice holds only characters of the whole. */
  lemma SliceInside(s: string, lo: nat, hi: nat)
    requires lo <= hi <= |s|
    ensures forall c :: c in s[lo..hi] ==> c in s
  {
    forall c | c in s[lo..hi] ensures c in s {
      var i :| 0 <= i < hi - lo && s[lo..hi][i] == c;
      assert s[lo + i] == c;
    }
  }

  class AlertService {
    var enabled: bool
    var alertEmails: seq<string>
    var lastAlertTime: map<string, int>
    var alertCounts: map<string, nat>

    function State(): Throttle
      reads this
    {
      Throttle(lastAlertTime, alertCounts)
    }

    /** `__init__`: disabled, no recipients, nothing throttled. */
    constructor ()
      ensures !enabled && alertEmails == [] && State() == Throttle(map[], map[])
    {
      enabled := false;
      alertEmails := [];
      lastAlertTime := map[];
      alertCounts := map[];
    }

    /**
     * `init_app`: the enabled flag and the recipient list from the
     * configuration; a non-empty `ALERT_EMAILS` replaces the recipients, and
     * the service switches itself off when it would have none.
     */
    method InitApp(alertsEnabled: bool, config: string)
      modifies this
      ensures alertEmails == if config != [] then Recipients(Split(config, ',')) else old(alertEmails)
      ensures enabled <==> alertsEnabled && alertEmails != []
      ensures State() == old(State())
    {
      enabled := alertsEnabled;
      if config != [] {
        alertEmails := Recipients(Split(config, ','));
      }
      if enabled && alertEmails == [] {
        enabled := false;
      }
    }

    /**
     * `_should_send_alert`: a disabled service sends nothing and changes
     * nothing; an enabled one decides by the key's last stamp and window.
     */
    method ShouldSendAlert(alertType: string, severity: string, now: int) returns (send: bool)
      modifies this
      ensures !enabled ==> !send && State() == old(State())
      ensures enabled ==> (send, State()) == Decide(old(State()), alertType, severity, now)
      ensures enabled == old(enabled) && alertEmails == old(alertEmails)
    {
      if !enabled {
        return false;
      }
      var key := Key(alertType, severity);
      if key in lastAlertTime {
        var lastTime := lastAlertTime[key];
        if now - lastTime < Window(severity) {
          alertCounts := alertCounts[key := Count(alertCounts, key) + 1];
          return false;
        }
      }
      lastAlertTime := lastAlertTime[key := now];
      return true;
    }

    /** `alert_security_breach`: throttled as `security_<event>` with the severity below. */
    method AlertSecurityBreach(eventType: string, now: int) returns (sent: bool)
      modifies this
      ensures !old(enabled) ==> !sent && State() == old(State())
      ensures old(enabled) ==> (sent, State()) == Decide(old(State()), "security_" + eventType, SecuritySeverity(eventType), now)
    {
      sent := ShouldSendAlert("security_" + eventType, SecuritySeverity(eventType), now);
    }

    /** `alert_resource_exhaustion`: throttled as `resource_<type>` with the severity below. */
    method AlertResourceExhaustion(resourceType: string, currentValue: real, now: int) returns (sent: bool)
      modifies this
      ensures !old(enabled) ==> !sent && State() == old(State())
      ensures old(enabled) ==> (sent, State()) == Decide(old(State()), "resource_" + resourceType, ResourceSeverity(currentValue), now)
    {
      sent := ShouldSendAlert("resource_" + resourceType, ResourceSeverity(currentValue), now);
    }
  }

  /** Security events: HIGH for a locked account or a denied permission, MEDIUM otherwise. */
  function SecuritySeverity(eventType: string): string {
    if eventType == "ACCOUNT_LOCKED" || eventType == "PERMISSION_DENIED" then High else Medium
  }

  /** Resource alerts: CRITICAL above 95, HIGH otherwise. */
  function ResourceSeverity(currentValue: real): string {
    if currentValue > 95.0 then Critical else High
  }

  /**
   * A security alert is throttled for 15 minutes exactly for the two
   * serious events and for 30 otherwise; a resource alert for 5 minutes
   * exactly above 95 and for 15 otherwise.
   */
  lemma SeverityWindows(eventType: string, currentValue: real)
    ensures WindowMinutes(SecuritySeverity(eventType)) == 15 <==> eventType in ["ACCOUNT_LOCKED", "PERMISSION_DENIED"]
    ensures WindowMinutes(SecuritySeverity(eventType)) == 30 <==> eventType !in ["ACCOUNT_LOCKED", "PERMISSION_DENIED"]
    ensures WindowMinutes(ResourceSeverity(currentValue)) == 5 <==> currentValue > 95.0
    ensures WindowMinutes(ResourceSeverity(currentValue)) == 15 <==> currentValue <= 95.0
  {
    WindowTable(eventType);
  }
}
