/**
 * The dispatch registry: four ordered lists of handler types (services, submissions,
 * problems, contests) and the functions that resolve a URL against them.  A handler
 * type is represented by its `from_url` classmethod, a matcher that either builds an
 * entity from the URL or declines.  Resolution tries the matchers of a list in
 * registration order and keeps the first entity produced; the service resolution
 * falls back to the owning service of a matching submission, then of a matching problem.
 */
module Dispatch {
  import opened Wrappers

  /** A URL as the resolution functions receive it. */
  type Url = string

  /** A handler type's `from_url`: the entity the URL identifies, or `None` to decline. */
  type Matcher<E> = Url -> Option<E>

  /** The entity of the earliest matcher in `hs` that accepts `url`, or `None` if none accepts. */
  function FirstMatch<E>(hs: seq<Matcher<E>>, url: Url): Option<E> {
    if hs == [] then None
    else if hs[0](url).Some? then hs[0](url)
    else FirstMatch(hs[1..], url)
  }

  /** `k` is the position of the earliest matcher in `hs` that accepts `url`. */
  ghost predicate EarliestAccepting<E>(hs: seq<Matcher<E>>, url: Url, k: int) {
    && 0 <= k < |hs|
    && hs[k](url).Some?
    && forall j :: 0 <= j < k ==> hs[j](url).None?
  }

  /**
   * First-match contract: the result is the entity `e` exactly when some matcher
   * produces `e` and every matcher before it declines.
   */
  lemma {:induction false} FirstMatchIsEarliest<E>(hs: seq<Matcher<E>>, url: Url, e: E)
    ensures FirstMatch(hs, url) == Some(e) <==>
              exists k :: EarliestAccepting(hs, url, k) && hs[k](url) == Some(e)
  {
    if hs != [] {
      FirstMatchIsEarliest(hs[1..], url, e);
      if hs[0](url).Some? {
        if FirstMatch(hs, url) == Some(e) {
          assert EarliestAccepting(hs, url, 0);
        }
      } else {
        if FirstMatch(hs, url) == Some(e) {
          var k :| EarliestAccepting(hs[1..], url, k) && hs[1..][k](url) == Some(e);
          assert EarliestAccepting(hs, url, k + 1);
        }
        if exists k :: EarliestAccepting(hs, url, k) && hs[k](url) == Some(e) {
          var k :| EarliestAccepting(hs, url, k) && hs[k](url) == Some(e);
          assert EarliestAccepting(hs[1..], url, k - 1);
        }
      }
    }
  }

  /** Resolution reports no match exactly when every registered matcher declines. */
  lemma {:induction false} FirstMatchNoneIff<E>(hs: seq<Matcher<E>>, url: Url)
    ensures FirstMatch(hs, url).None? <==> forall i :: 0 <= i < |hs| ==> hs[i](url).None?
  {
    if hs != [] {
      FirstMatchNoneIff(hs[1..], url);
      if hs[0](url).None? {
        assert forall i :: 1 <= i < |hs| ==> hs[i] == hs[1..][i - 1];
      }
    }
  }

  /**
   * Resolving against a list made of two parts: the first part wins whenever it
   * matches, and the second part is consulted only when the first declines.
   */
  lemma {:induction false} FirstMatchAppend<E>(a: seq<Matcher<E>>, b: seq<Matcher<E>>, url: Url)
    ensures FirstMatch(a + b, url) ==
              if FirstMatch(a, url).Some? then FirstMatch(a, url) else FirstMatch(b, url)
  {
    if a == [] {
      assert a + b == b;
    } else {
      assert (a + b)[0] == a[0];
      assert (a + b)[1..] == a[1..] + b;
      FirstMatchAppend(a[1..], b, url);
    }
  }

  /**
   * Registering a handler at the end of a list never changes a URL that already
   * resolved; a URL that did not resolve now goes to the new handler's answer.
   */
  lemma RegisterLastNeverShadows<E>(hs: seq<Matcher<E>>, h: Matcher<E>, url: Url)
    ensures FirstMatch(hs, url).Some? ==> FirstMatch(hs + [h], url) == FirstMatch(hs, url)
    ensures FirstMatch(hs, url).None? ==> FirstMatch(hs + [h], url) == h(url)
  {
    FirstMatchAppend(hs, [h], url);
    assert [h][1..] == [];
  }

  /**
   * Once the `k`-th matcher accepts and all before it decline, the matchers after it
   * play no part: any list that agrees up to `k` resolves the same way.
   */
  lemma LaterMatchersNotConsulted<E>(hs: seq<Matcher<E>>, rest: seq<Matcher<E>>, url: Url, k: int)
    requires EarliestAccepting(hs, url, k)
    ensures FirstMatch(hs[..k + 1] + rest, url) == hs[k](url)
    ensures FirstMatch(hs, url) == hs[k](url)
  {
    FirstMatchIsEarliest(hs, url, hs[k](url).value);
    FirstMatchIsEarliest(hs[..k + 1], url, hs[k](url).value);
    assert EarliestAccepting(hs[..k + 1], url, k);
    FirstMatchAppend(hs[..k + 1], rest, url);
  }

  /** The `for cls in ...: ... return` search shared by the resolution functions. */
  method FindFirst<E>(hs: seq<Matcher<E>>, url: Url) returns (r: Option<E>)
    ensures r == FirstMatch(hs, url)
  {
    var i := 0;
    while i < |hs|
      invariant 0 <= i <= |hs|
      invariant FirstMatch(hs[i..], url) == FirstMatch(hs, url)
    {
      var found := hs[i](url);
      if found.Some? {
        return found;
      }
      assert hs[i..][1..] == hs[i + 1..];
      i := i + 1;
    }
    return None;
  }

  /**
   * The service a URL resolves to: the first accepting service handler; otherwise the
   * owning service of the first matching submission; otherwise that of the first
   * matching problem; otherwise `None`.
   */
  function ResolveService<S, Sub, P>(
    services: seq<Matcher<S>>, submissions: seq<Matcher<Sub>>, problems: seq<Matcher<P>>,
    submissionService: Sub -> S, problemService: P -> S, url: Url): Option<S>
  {
    var service := FirstMatch(services, url);
    if service.Some? then service
    else
      var submission := FirstMatch(submissions, url);
      if submission.Some? then Some(submissionService(submission.value))
      else MapOption(FirstMatch(problems, url), problemService)
  }

  /** A service handler that accepts takes priority over every submission and problem handler. */
  lemma ResolveServicePrefersServices<S, Sub, P>(
    services: seq<Matcher<S>>, submissions: seq<Matcher<Sub>>, problems: seq<Matcher<P>>,
    submissionService: Sub -> S, problemService: P -> S, url: Url, k: int)
    requires EarliestAccepting(services, url, k)
    ensures ResolveService(services, submissions, problems, submissionService, problemService, url)
            == services[k](url)
  {
    LaterMatchersNotConsulted(services, [], url, k);
  }

  /** With every service handler declining, the first matching submission decides. */
  lemma ResolveServiceFallsBackToSubmission<S, Sub, P>(
    services: seq<Matcher<S>>, submissions: seq<Matcher<Sub>>, problems: seq<Matcher<P>>,
    submissionService: Sub -> S, problemService: P -> S, url: Url, k: int)
    requires forall i :: 0 <= i < |services| ==> services[i](url).None?
    requires EarliestAccepting(submissions, url, k)
    ensures ResolveService(services, submissions, problems, submissionService, problemService, url)
            == Some(submissionService(submissions[k](url).value))
  {
    FirstMatchNoneIff(services, url);
    LaterMatchersNotConsulted(submissions, [], url, k);
  }

  /** With every service and submission handler declining, the first matching problem decides. */
  lemma ResolveServiceFallsBackToProblem<S, Sub, P>(
    services: seq<Matcher<S>>, submissions: seq<Matcher<Sub>>, problems: seq<Matcher<P>>,
    submissionService: Sub -> S, problemService: P -> S, url: Url, k: int)
    requires forall i :: 0 <= i < |services| ==> services[i](url).None?
    requires forall i :: 0 <= i < |submissions| ==> submissions[i](url).None?
    requires EarliestAccepting(problems, url, k)
    ensures ResolveService(services, submissions, problems, submissionService, problemService, url)
            == Some(problemService(problems[k](url).value))
  {
    FirstMatchNoneIff(services, url);
    FirstMatchNoneIff(submissions, url);
    LaterMatchersNotConsulted(problems, [], url, k);
  }

  /** Service resolution reports no match exactly when every handler of the three lists declines. */
  lemma ResolveServiceNoneIff<S, Sub, P>(
    services: seq<Matcher<S>>, submissions: seq<Matcher<Sub>>, problems: seq<Matcher<P>>,
    submissionService: Sub -> S, problemService: P -> S, url: Url)
    ensures ResolveService(services, submissions, problems, submissionService, problemService, url).None?
            <==> && (forall i :: 0 <= i < |services| ==> services[i](url).None?)
                 && (forall i :: 0 <= i < |submissions| ==> submissions[i](url).None?)
                 && (forall i :: 0 <= i < |problems| ==> problems[i](url).None?)
  {
    FirstMatchNoneIff(services, url);
    FirstMatchNoneIff(submissions, url);
    FirstMatchNoneIff(problems, url);
  }

  /**
   * The four module-level registries.  Site handlers append themselves when their
   * module is loaded; the resolution methods only read the lists (they have no
   * `modifies` clause, so they cannot change them).
   */
  class Registry<S, Sub, P, C> {
    var services: seq<Matcher<S>>
    var submissions: seq<Matcher<Sub>>
    var problems: seq<Matcher<P>>
    var contests: seq<Matcher<C>>

    /** All four lists start empty. */
    constructor ()
      ensures services == [] && submissions == [] && problems == [] && contests == []
    {
      services, submissions, problems, contests := [], [], [], [];
    }

    /** `services += [cls]`. */
    method RegisterService(h: Matcher<S>)
      modifies this
      ensures services == old(services) + [h]
      ensures submissions == old(submissions) && problems == old(problems) && contests == old(contests)
    {
      services := services + [h];
    }

    /** `submissions += [cls]`. */
    method RegisterSubmission(h: Matcher<Sub>)
      modifies this
      ensures submissions == old(submissions) + [h]
      ensures services == old(services) && problems == old(problems) && contests == old(contests)
    {
      submissions := submissions + [h];
    }

    /** `problems += [cls]`. */
    method RegisterProblem(h: Matcher<P>)
      modifies this
      ensures problems == old(problems) + [h]
      ensures services == old(services) && submissions == old(submissions) && contests == old(contests)
    {
      problems := problems + [h];
    }

    /** `contests += [cls]`. */
    method RegisterContest(h: Matcher<C>)
      modifies this
      ensures contests == old(contests) + [h]
      ensures services == old(services) && submissions == old(submissions) && problems == old(problems)
    {
      contests := contests + [h];
    }

    /** `submission_from_url`. */
    method SubmissionFromUrl(url: Url) returns (r: Option<Sub>)
      ensures r == FirstMatch(submissions, url)
    {
      r := FindFirst(submissions, url);
    }

    /** `problem_from_url`. */
    method ProblemFromUrl(url: Url) returns (r: Option<P>)
      ensures r == FirstMatch(problems, url)
    {
      r := FindFirst(problems, url);
    }

    /** `contest_from_url`. */
    method ContestFromUrl(url: Url) returns (r: Option<C>)
      ensures r == FirstMatch(contests, url)
    {
      r := FindFirst(contests, url);
    }

    /**
     * `service_from_url`; `submissionService` and `problemService` stand for the
     * `get_service()` of the entities the two fallback lists produce.
     */
    method ServiceFromUrl(url: Url, submissionService: Sub -> S, problemService: P -> S)
      returns (r: Option<S>)
      ensures r == ResolveService(services, submissions, problems, submissionService, problemService, url)
    {
      r := FindFirst(services, url);
      if r.Some? {
        return;
      }
      var submission := SubmissionFromUrl(url);
      if submission.Some? {
        return Some(submissionService(submission.value));
      }
      var problem := ProblemFromUrl(url);
      if problem.Some? {
        return Some(problemService(problem.value));
      }
      return None;
    }
  }
}
