/**
 Names of the objects the operator owns. The rest of the model addresses objects by the
 structured `Name`; `Render` is the string the source builds, and the lemmas below show
 that nothing is lost by keeping names structured.
 */
module Naming {
  import opened Basics

  datatype Name =
    | Replica(index: int)       // "jvb-3": Deployment and Service of a replica
    | ExporterOf(index: int)    // "exporter-jvb-3": metrics Service of a replica
    | SipOf(index: int)         // "jvb-3-custom-sip": SIP ConfigMap of a replica
    | ShutdownMap               // "jvb-graceful-shutdown"
    | LoggingMap                // "jvb-custom-logging"
    | Foreign(text: string)     // any other object of the namespace

  function Digit(d: nat): (c: char)
    requires d < 10
    ensures '0' <= c <= '9' && c as int - '0' as int == d
  {
    '0' + d as char
  }

  /** Decimal digits of a natural number. */
  function Digits(n: nat): (s: string)
    ensures |s| > 0 && forall i :: 0 <= i < |s| ==> '0' <= s[i] <= '9'
  {
    if n < 10 then [Digit(n)] else Digits(n / 10) + [Digit(n % 10)]
  }

  /** `%d` of the source's format strings. */
  function Itoa(n: int): (s: string)
    ensures |s| > 0 && ('0' <= s[0] <= '9' || s[0] == '-')
  {
    if n < 0 then "-" + Digits(-n) else Digits(n)
  }

  /** The number a digit string stands for. */
  function Value(s: string): int {
    if s == "" then 0
    else Value(s[..|s| - 1]) * 10 + (s[|s| - 1] as int - '0' as int)
  }

  lemma {:induction false} ValueOfDigits(n: nat)
    ensures Value(Digits(n)) == n
  {
    if n >= 10 {
      ValueOfDigits(n / 10);
      var s := Digits(n);
      assert s[..|s| - 1] == Digits(n / 10);
    } else {
      assert Digits(n)[..0] == "";
    }
  }

  /** Decimal numbers have no leading zero. */
  lemma {:induction false} NoLeadingZero(n: nat)
    requires n > 0
    ensures Digits(n)[0] != '0'
  {
    if n >= 10 { NoLeadingZero(n / 10); }
  }

  lemma DigitsInjective(n: nat, m: nat)
    requires Digits(n) == Digits(m)
    ensures n == m
  {
    ValueOfDigits(n);
    ValueOfDigits(m);
  }

  lemma ItoaSign(a: int)
    ensures Itoa(a)[0] == '-' <==> a < 0
    ensures Itoa(a) == if a < 0 then "-" + Digits(-a) else Digits(a)
    ensures a < 0 ==> Itoa(a)[1..] == Digits(-a)
  {
  }

  /** Printing a number in decimal loses nothing. */
  lemma ItoaInjective(a: int, b: int)
    requires Itoa(a) == Itoa(b)
    ensures a == b
  {
    hide Itoa, Digits;
    ItoaSign(a);
    ItoaSign(b);
    if a < 0 { DigitsInjective(-a, -b); } else { DigitsInjective(a, b); }
  }

  function ReplicaName(r: int): string { "jvb-" + Itoa(r) }

  const SIP_SUFFIX := "-custom-sip"

  function Render(n: Name): string {
    match n
    case Replica(r) => ReplicaName(r)
    case ExporterOf(r) => "exporter-" + ReplicaName(r)
    case SipOf(r) => ReplicaName(r) + SIP_SUFFIX
    case ShutdownMap => "jvb-graceful-shutdown"
    case LoggingMap => "jvb-custom-logging"
    case Foreign(text) => text
  }

  /** The names of the source's format strings. */
  lemma NamesInFull(r: int)
    ensures Render(Replica(r)) == "jvb-" + Itoa(r)
    ensures Render(ExporterOf(r)) == "exporter-jvb-" + Itoa(r)
    ensures Render(SipOf(r)) == "jvb-" + Itoa(r) + "-custom-sip"
    ensures Render(ShutdownMap) == "jvb-graceful-shutdown" && Render(LoggingMap) == "jvb-custom-logging"
  {
    assert "exporter-" + ("jvb-" + Itoa(r)) == ("exporter-" + "jvb-") + Itoa(r);
  }

  /** A `Foreign` name is one that the operator never builds. */
  ghost predicate WellNamed(n: Name) {
    n.Foreign? ==> forall m: Name :: !m.Foreign? ==> Render(m) != n.text
  }

  /** Every character of a replica name after its prefix is a digit, except a leading sign. */
  lemma ReplicaNameShape(r: int)
    ensures var s := ReplicaName(r);
            |s| > 4 && s[..4] == "jvb-" && s[4..] == Itoa(r)
            && ('0' <= s[4] <= '9' || s[4] == '-') && '0' <= s[|s| - 1] <= '9'
  {
    var s := ReplicaName(r);
    assert s[4..] == Itoa(r);
    assert s[|s| - 1] == Itoa(r)[|Itoa(r)| - 1];
  }

  /** Distinct structured names render to distinct strings. */
  lemma RenderInjective(a: Name, b: Name)
    requires WellNamed(a) && WellNamed(b)
    ensures Render(a) == Render(b) <==> a == b
  {
    if Render(a) == Render(b) && !a.Foreign? && !b.Foreign? {
      RenderInjectiveOwn(a, b);
    }
  }

  /** What tells the five families apart: first letter, fifth character, last character. */
  lemma FamilyMarks(n: Name)
    requires !n.Foreign?
    ensures var s := Render(n);
            && |s| > 4
            && (s[0] == 'e' <==> n.ExporterOf?)
            && (n.ShutdownMap? ==> s[4] == 'g') && (n.LoggingMap? ==> s[4] == 'c')
            && (n.SipOf? ==> s[|s| - 1] == 'p')
            && (n.Replica? ==> '0' <= s[|s| - 1] <= '9')
            && (n.Replica? || n.SipOf? ==> '0' <= s[4] <= '9' || s[4] == '-')
  {
    if n.Replica? || n.SipOf? || n.ExporterOf? {
      ReplicaNameShape(n.index);
      var s := ReplicaName(n.index);
      assert s[0] == s[..4][0];
      if n.SipOf? {
        assert Render(n)[|Render(n)| - 1] == SIP_SUFFIX[|SIP_SUFFIX| - 1];
      }
    }
  }

  lemma RenderInjectiveOwn(a: Name, b: Name)
    requires !a.Foreign? && !b.Foreign?
    requires Render(a) == Render(b)
    ensures a == b
  {
    FamilyMarks(a);
    FamilyMarks(b);
    var s := Render(a);
    match a {
      case Replica(r) =>
        ReplicaNameShape(r);
        ReplicaNameShape(b.index);
        ItoaInjective(r, b.index);
      case ExporterOf(r) =>
        assert s[9..] == ReplicaName(r) && Render(b)[9..] == ReplicaName(b.index);
        ReplicaNameShape(r);
        ReplicaNameShape(b.index);
        ItoaInjective(r, b.index);
      case SipOf(r) =>
        var k := |s| - |SIP_SUFFIX|;
        assert s[..k] == ReplicaName(r) && Render(b)[..k] == ReplicaName(b.index);
        ReplicaNameShape(r);
        ReplicaNameShape(b.index);
        ItoaInjective(r, b.index);
      case ShutdownMap =>
      case LoggingMap =>
      case Foreign(_) =>
    }
  }

  // ---- Addressing by string, as the API server does ----

  ghost predicate AllWellNamed(keys: set<Name>) {
    forall n :: n in keys ==> WellNamed(n)
  }

  /** The entry stored under a string name. */
  ghost function Lookup<V>(m: map<Name, V>, s: string): Option<V> {
    if exists n :: n in m && Render(n) == s then
      var n :| n in m && Render(n) == s;
      Some(m[n])
    else
      None
  }

  lemma LookupIsFind<V>(m: map<Name, V>, n: Name)
    requires AllWellNamed(m.Keys) && WellNamed(n)
    ensures Lookup(m, Render(n)) == Find(m, n)
  {
    if k :| k in m && Render(k) == Render(n) {
      var chosen :| chosen in m && Render(chosen) == Render(n) && Lookup(m, Render(n)) == Some(m[chosen]);
      RenderInjective(chosen, n);
    }
  }

  /** Strings that name nothing in a collection find nothing. */
  lemma LookupNothing<V>(m: map<Name, V>, s: string)
    requires forall n :: n in m ==> Render(n) != s
    ensures Lookup(m, s) == None
  {
  }

  /** Looking up, writing and removing by structured name is doing so by the rendered string. */
  lemma NamesAreFaithful<V>(m: map<Name, V>, n: Name, v: V, s: string)
    requires AllWellNamed(m.Keys) && WellNamed(n)
    ensures Lookup(m, Render(n)) == Find(m, n)
    ensures Lookup(m[n := v], s) == if s == Render(n) then Some(v) else Lookup(m, s)
    ensures Lookup(m - {n}, s) == if s == Render(n) then None else Lookup(m, s)
  {
    LookupIsFind(m, n);
    var put, cut := m[n := v], m - {n};
    if s == Render(n) {
      LookupIsFind(put, n);
      LookupIsFind(cut, n);
    } else if k :| k in m && Render(k) == s {
      assert k in put && k in cut;
      LookupIsFind(m, k);
      LookupIsFind(put, k);
      LookupIsFind(cut, k);
    } else {
      LookupNothing(put, s);
      LookupNothing(cut, s);
    }
  }
}
