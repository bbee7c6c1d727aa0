/**
 `Principal::parse` and its `Display` in `crates/spt-auth-sspi/src/lib.rs`.

 The code takes what follows `@` as the realm in every case; the prose above it says
 that `service@host` fills the instance. The model follows the code.
 */
module Principals {

  import opened Basics
  import opened Text

  datatype Principal = Principal(service: string, instance: Option<string>, realm: Option<string>)

  datatype ParseError = EmptyService | EmptyInstance | EmptyRealm | MultipleRealms | MultipleInstances

  datatype Result = Ok(value: Principal) | Err(error: ParseError)

  function Parse(s: string): Result
  {
    match RSplitOnce(s, '@')
    case Some((l, r)) =>
      if r == [] then Err(EmptyRealm)
      else if '@' in l then Err(MultipleRealms)
      else ParseLeft(l, Some(r))
    case None => ParseLeft(s, None)
  }

  function ParseLeft(left: string, realm: Option<string>): Result
  {
    match SplitOnce(left, '/')
    case Some((svc, inst)) =>
      if svc == [] then Err(EmptyService)
      else if inst == [] then Err(EmptyInstance)
      else if '/' in inst then Err(MultipleInstances)
      else Ok(Principal(svc, Some(inst), realm))
    case None =>
      if left == [] then Err(EmptyService) else Ok(Principal(left, None, realm))
  }

  function PrintLeft(p: Principal): string
  {
    p.service + if p.instance.Some? then "/" + p.instance.value else ""
  }

  function Print(p: Principal): string
  {
    PrintLeft(p) + if p.realm.Some? then "@" + p.realm.value else ""
  }

  predicate Component(s: string) { s != [] && '@' !in s && '/' !in s }

  /** The principals that have a spelling. A realm may contain `/`. */
  predicate WellFormed(p: Principal)
  {
    && Component(p.service)
    && (p.instance.Some? ==> Component(p.instance.value))
    && (p.realm.Some? ==> p.realm.value != [] && '@' !in p.realm.value)
  }

  /** Reading back what was printed gives the principal again. */
  lemma ParsePrints(p: Principal)
    requires WellFormed(p)
    ensures Parse(Print(p)) == Ok(p)
  {
    var left := PrintLeft(p);
    if p.instance.Some? {
      assert left == p.service + ['/'] + p.instance.value;
      SplitOnceJoins(p.service, '/', p.instance.value);
    } else {
      assert left == p.service;
    }
    assert ParseLeft(left, p.realm) == Ok(p);
    if p.realm.Some? {
      assert Print(p) == left + ['@'] + p.realm.value;
      RSplitOnceJoins(left, '@', p.realm.value);
    } else {
      assert Print(p) == left;
    }
  }

  lemma PrintParsesLeft(left: string, realm: Option<string>)
    requires ParseLeft(left, realm).Ok? && '@' !in left
    ensures var p := ParseLeft(left, realm).value;
            && PrintLeft(p) == left && p.realm == realm
            && Component(p.service) && (p.instance.Some? ==> Component(p.instance.value))
  {
  }

  /** An accepted string is the spelling of the principal it parses to, and that
      principal is well formed. */
  lemma PrintParses(s: string)
    requires Parse(s).Ok?
    ensures WellFormed(Parse(s).value) && Print(Parse(s).value) == s
  {
    if '@' in s {
      var (l, r) := RSplitOnce(s, '@').value;
      PrintParsesLeft(l, Some(r));
    } else {
      PrintParsesLeft(s, None);
    }
  }

  /** Parsing and printing are inverse bijections between the accepted strings and
      the well-formed principals. */
  lemma AcceptedIffSpelling(s: string, p: Principal)
    ensures Parse(s) == Ok(p) <==> WellFormed(p) && s == Print(p)
  {
    if Parse(s) == Ok(p) {
      PrintParses(s);
    }
    if WellFormed(p) {
      ParsePrints(p);
    }
  }

  // ----- Which error, and when -----

  function Occurrences(s: string, c: char): nat
  {
    if s == [] then 0 else (if s[0] == c then 1 else 0) + Occurrences(s[1..], c)
  }

  lemma {:induction false} OccurrencesConcat(a: string, b: string, c: char)
    ensures Occurrences(a + b, c) == Occurrences(a, c) + Occurrences(b, c)
  {
    if a == [] {
      assert a + b == b;
    } else {
      assert (a + b)[1..] == a[1..] + b;
      OccurrencesConcat(a[1..], b, c);
    }
  }

  lemma {:induction false} NoOccurrence(s: string, c: char)
    ensures Occurrences(s, c) == 0 <==> c !in s
  {
    if s != [] {
      NoOccurrence(s[1..], c);
    }
  }

  /** The part before the last `@`, or all of `s`. */
  function Left(s: string): string
  {
    if RSplitOnce(s, '@').Some? then RSplitOnce(s, '@').value.0 else s
  }

  lemma SplitCounts(s: string, l: string, c: char, r: string)
    requires s == l + [c] + r
    ensures Occurrences(s, c) == Occurrences(l, c) + 1 + Occurrences(r, c)
  {
    OccurrencesConcat(l + [c], r, c);
    OccurrencesConcat(l, [c], c);
    assert [c][1..] == [];
  }

  /** Acceptance and every rejection, by the separators alone: at most one `@`, at
      most one `/` before it, and no empty component. */
  lemma ErrorsByGrammar(s: string)
    ensures Parse(s) == Err(EmptyRealm) <==> s != [] && s[|s| - 1] == '@'
    ensures Parse(s) == Err(MultipleRealms) <==> Occurrences(s, '@') >= 2 && s[|s| - 1] != '@'
    ensures var left, ends := Left(s), s != [] && s[|s| - 1] == '@';
            Occurrences(s, '@') <= 1 && !ends ==>
              && (Parse(s) == Err(EmptyService) <==> left == [] || left[0] == '/')
              && (Parse(s) == Err(EmptyInstance) <==>
                    |left| > 1 && Occurrences(left, '/') == 1 && left[|left| - 1] == '/')
              && (Parse(s) == Err(MultipleInstances) <==>
                    Occurrences(left, '/') >= 2 && left[0] != '/')
    ensures Parse(s).Ok? <==>
            && Occurrences(s, '@') <= 1 && (s != [] ==> s[|s| - 1] != '@')
            && var left := Left(s);
               left != [] && Occurrences(left, '/') <= 1 && left[0] != '/' && left[|left| - 1] != '/'
  {
    RealmErrors(s);
    if Occurrences(s, '@') <= 1 && !(s != [] && s[|s| - 1] == '@') {
      LeftErrors(Left(s), if RSplitOnce(s, '@').Some? then Some(RSplitOnce(s, '@').value.1) else None);
    }
  }

  /** What follows `@` is the realm, with or without an instance before it: the host of
      `service@host` is never the instance. */
  lemma HostIsTheRealm(s: string)
    requires Parse(s).Ok?
    ensures var p := Parse(s).value;
            && (p.realm.Some? <==> '@' in s)
            && (p.realm.Some? ==> s == Left(s) + "@" + p.realm.value)
            && (p.instance.Some? <==> '/' in Left(s))
            && (p.instance.Some? ==> Left(s) == p.service + "/" + p.instance.value)
  {
  }

  lemma HostForm(service: string, host: string)
    requires Component(service) && host != [] && '@' !in host
    ensures Parse(service + "@" + host) == Ok(Principal(service, None, Some(host)))
  {
    var p := Principal(service, None, Some(host));
    ParsePrints(p);
    assert Print(p) == service + "@" + host;
  }

  lemma FullForm(service: string, instance: string, realm: string)
    requires Component(service) && Component(instance) && realm != [] && '@' !in realm
    ensures Parse(service + "/" + instance + "@" + realm) == Ok(Principal(service, Some(instance), Some(realm)))
  {
    var p := Principal(service, Some(instance), Some(realm));
    ParsePrints(p);
    assert Print(p) == service + "/" + instance + "@" + realm;
  }

  lemma HostFormExample()
    ensures Parse("host@h") == Ok(Principal("host", None, Some("h")))
  {
    var service, host := "host", "h";
    assert service + "@" + host == "host@h";
    assert Component(service) && '@' !in host;
    HostForm(service, host);
  }

  lemma RealmErrors(s: string)
    ensures Parse(s) == Err(EmptyRealm) <==> s != [] && s[|s| - 1] == '@'
    ensures Parse(s) == Err(MultipleRealms) <==> Occurrences(s, '@') >= 2 && s[|s| - 1] != '@'
  {
    LeftNeverBlamesRealm(Left(s), if RSplitOnce(s, '@').Some? then Some(RSplitOnce(s, '@').value.1) else None);
    if '@' in s {
      var (l, r) := RSplitOnce(s, '@').value;
      LastOfSplit(s, l, r);
      SplitCounts(s, l, '@', r);
      NoOccurrence(l, '@');
      NoOccurrence(r, '@');
    } else {
      NoOccurrence(s, '@');
    }
  }

  lemma LeftNeverBlamesRealm(left: string, realm: Option<string>)
    ensures ParseLeft(left, realm) != Err(EmptyRealm) && ParseLeft(left, realm) != Err(MultipleRealms)
  {
  }

  lemma LastOfSplit(s: string, l: string, r: string)
    requires s == l + ['@'] + r && '@' !in r
    ensures s[|s| - 1] == '@' <==> r == []
  {
    if r != [] {
      assert s[|s| - 1] == r[|r| - 1];
    }
  }

  lemma LeftErrors(left: string, realm: Option<string>)
    ensures ParseLeft(left, realm) == Err(EmptyService) <==> left == [] || left[0] == '/'
    ensures ParseLeft(left, realm) == Err(EmptyInstance) <==>
            |left| > 1 && Occurrences(left, '/') == 1 && left[|left| - 1] == '/'
    ensures ParseLeft(left, realm) == Err(MultipleInstances) <==> Occurrences(left, '/') >= 2 && left[0] != '/'
  {
    NoOccurrence(left, '/');
    match SplitOnce(left, '/')
    case None =>
    case Some((svc, inst)) =>
      SplitCounts(left, svc, '/', inst);
      NoOccurrence(svc, '/');
      NoOccurrence(inst, '/');
  }
}
