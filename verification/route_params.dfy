/**
 * The route-parameter coverage check of the registry's test suite: every
 * `:name` parameter that some route registration uses must be validated by an
 * `app.param` registration. The scan of the application's source text is an
 * input here: the check starts from the `(method, quoted path)` pairs it found.
 */
module RouteParams {
  import opened Options
  import Text

  /** One `app.<verb>('<path>', ...)` call, with the path still quoted. */
  datatype Registration = Registration(verb: string, quoted: string)

  /**
   * A value of the `params` object: `'ok'` once an `app.param` registration
   * validated the name, otherwise the first route registration that used it.
   * The source stores that route's trimmed source text, which is never `'ok'`
   * and never empty; the registration itself stands for it here.
   */
  datatype Entry = Ok | FirstUse(route: Registration)

  /** The path segments of a registration: quotes stripped, split on '/'. */
  function Segments(r: Registration): seq<string>
  {
    Text.Split(Text.Unquote(r.quoted), '/')
  }

  /** Characters `[^?:]` allowed in a parameter name. */
  predicate IsName(n: string)
  {
    ':' !in n && '?' !in n
  }

  /**
   * The name captured by `^:([^?:]*)\??$`, or None when the segment is not a
   * route parameter.
   */
  function ParamName(seg: string): (name: Option<string>)
    ensures name.Some? ==> IsName(name.value)
    ensures name.Some? ==> seg == ":" + name.value || seg == ":" + name.value + "?"
  {
    if |seg| == 0 || seg[0] != ':' then None
    else
      var rest := seg[1..];
      var n := if |rest| > 0 && rest[|rest| - 1] == '?' then rest[..|rest| - 1] else rest;
      assert seg == ":" + rest;
      assert rest == n || rest == n + "?";
      if IsName(n) then Some(n) else None
  }

  /**
   * The pattern, stated from the other side: a segment yields name `n` exactly
   * when it is `:` followed by `n` and an optional `?`, and `n` holds neither
   * `:` nor `?`.
   */
  lemma ParamNamePattern(seg: string, n: string)
    ensures ParamName(seg) == Some(n) <==> IsName(n) && (seg == ":" + n || seg == ":" + n + "?")
  {
    if IsName(n) && (seg == ":" + n || seg == ":" + n + "?") {
      var rest := seg[1..];
      assert rest == n || rest == n + "?";
      if rest == n + "?" {
        assert rest[..|rest| - 1] == n;
      } else {
        assert |rest| > 0 ==> rest[|rest| - 1] != '?';
      }
    }
  }

  /** `app.param(...)` registrations validate every one of their segments. */
  predicate IsParamCall(r: Registration)
  {
    r.verb == "param"
  }

  /** Registrations other than `app.set` and `app.param` are routes. */
  predicate IsRoute(r: Registration)
  {
    r.verb != "set" && r.verb != "param"
  }

  /** `r` validates the name `k`. */
  predicate Marks(r: Registration, k: string)
  {
    IsParamCall(r) && k in Segments(r)
  }

  /** Some segment of `segs` is a route parameter named `k`. */
  predicate NamesIn(segs: seq<string>, k: string)
  {
    exists seg :: seg in segs && ParamName(seg) == Some(k)
  }

  /** `r` is a route that has a parameter named `k`. */
  predicate Uses(r: Registration, k: string)
  {
    IsRoute(r) && NamesIn(Segments(r), k)
  }

  /** The body of the `forEach` over the segments of one registration. */
  function Visit(params: map<string, Entry>, r: Registration, seg: string): map<string, Entry>
  {
    if IsParamCall(r) then params[seg := Ok]
    else
      match ParamName(seg)
      case Some(name) => if name in params then params else params[name := FirstUse(r)]
      case None => params
  }

  /** The `forEach` over the segments, in order. */
  function VisitAll(params: map<string, Entry>, r: Registration, segs: seq<string>): map<string, Entry>
    decreases |segs|
  {
    if |segs| == 0 then params else VisitAll(Visit(params, r, segs[0]), r, segs[1..])
  }

  /** One iteration of the scanning loop: `app.set` calls are skipped. */
  function Register(params: map<string, Entry>, r: Registration): map<string, Entry>
  {
    if r.verb == "set" then params else VisitAll(params, r, Segments(r))
  }

  /** The `params` object after the whole scan, registrations in source order. */
  function Collect(regs: seq<Registration>): map<string, Entry>
    decreases |regs|
  {
    if |regs| == 0 then map[] else Register(Collect(regs[..|regs| - 1]), regs[|regs| - 1])
  }

  /** One check per key of `params`; it passes when the value is `'ok'`. */
  function Verdicts(params: map<string, Entry>): (checks: map<string, bool>)
    ensures checks.Keys == params.Keys
    ensures forall k :: k in checks ==> (checks[k] <==> params[k] == Ok)
  {
    map k | k in params :: params[k] == Ok
  }

  /** How one registration's segment loop changes the entry of one key. */
  lemma {:induction false} VisitAllKey(params: map<string, Entry>, r: Registration, segs: seq<string>, k: string)
    ensures var out := VisitAll(params, r, segs);
      && (k in out <==> k in params || (IsParamCall(r) && k in segs) || (!IsParamCall(r) && NamesIn(segs, k)))
      && (k in out ==> (out[k] == Ok <==> (k in params && params[k] == Ok) || (IsParamCall(r) && k in segs)))
      && (k in params && !(IsParamCall(r) && k in segs) ==> out[k] == params[k])
      && (k !in params && k in out && !IsParamCall(r) ==> out[k] == FirstUse(r))
    decreases |segs|
  {
    if |segs| > 0 {
      var next := Visit(params, r, segs[0]);
      VisitAllKey(next, r, segs[1..], k);
      assert segs == [segs[0]] + segs[1..];
      if !IsParamCall(r) {
        if NamesIn(segs, k) && !NamesIn(segs[1..], k) {
          assert ParamName(segs[0]) == Some(k);
        }
        if NamesIn(segs[1..], k) {
          var seg :| seg in segs[1..] && ParamName(seg) == Some(k);
          assert seg in segs;
        }
      }
    }
  }

  /** How one registration changes the entry of one key. */
  lemma RegisterKey(params: map<string, Entry>, r: Registration, k: string)
    ensures var out := Register(params, r);
      && (k in out <==> k in params || Marks(r, k) || Uses(r, k))
      && (k in out ==> (out[k] == Ok <==> (k in params && params[k] == Ok) || Marks(r, k)))
      && (k in params && !Marks(r, k) ==> out[k] == params[k])
      && (k !in params && k in out && !Marks(r, k) ==> out[k] == FirstUse(r) && Uses(r, k))
  {
    if r.verb != "set" {
      VisitAllKey(params, r, Segments(r), k);
    }
  }

  /** Some registration of `regs` validates `k`. */
  predicate Validated(regs: seq<Registration>, k: string)
  {
    exists r :: r in regs && Marks(r, k)
  }

  /** Some registration of `regs` validates `k` or uses it as a route parameter. */
  predicate Mentioned(regs: seq<Registration>, k: string)
  {
    exists r :: r in regs && (Marks(r, k) || Uses(r, k))
  }

  /** `regs[i]` is the first route of `regs` that uses `k`. */
  predicate FirstUser(regs: seq<Registration>, i: int, k: string)
  {
    && 0 <= i < |regs|
    && Uses(regs[i], k)
    && forall j :: 0 <= j < i ==> !Uses(regs[j], k)
  }

  /** After the scan, a key is present iff some registration mentions it. */
  lemma {:induction false} CollectKeyPresent(regs: seq<Registration>, k: string)
    ensures k in Collect(regs) <==> Mentioned(regs, k)
    decreases |regs|
  {
    if |regs| > 0 {
      var prefix := regs[..|regs| - 1];
      var last := regs[|regs| - 1];
      assert regs == prefix + [last];
      CollectKeyPresent(prefix, k);
      RegisterKey(Collect(prefix), last, k);
    }
  }

  /**
   * After the scan, a present key holds `'ok'` iff some `app.param`
   * registration validates it, wherever that registration sits in the scan.
   */
  lemma {:induction false} CollectKeyValidated(regs: seq<Registration>, k: string)
    ensures k in Collect(regs) ==> (Collect(regs)[k] == Ok <==> Validated(regs, k))
    decreases |regs|
  {
    if |regs| > 0 {
      var prefix := regs[..|regs| - 1];
      var last := regs[|regs| - 1];
      assert regs == prefix + [last];
      CollectKeyValidated(prefix, k);
      CollectKeyPresent(prefix, k);
      RegisterKey(Collect(prefix), last, k);
    }
  }

  /**
   * After the scan, a present key that is not `'ok'` holds the first route,
   * in source order, that used it.
   */
  lemma {:induction false} CollectKeyFirstUse(regs: seq<Registration>, k: string)
    ensures k in Collect(regs) && Collect(regs)[k] != Ok ==>
      exists i :: FirstUser(regs, i, k) && Collect(regs)[k] == FirstUse(regs[i])
    decreases |regs|
  {
    if |regs| > 0 {
      var prefix := regs[..|regs| - 1];
      var last := regs[|regs| - 1];
      assert regs == prefix + [last];
      CollectKeyFirstUse(prefix, k);
      CollectKeyPresent(prefix, k);
      RegisterKey(Collect(prefix), last, k);
      var out := Collect(regs);
      if k in out && out[k] != Ok {
        if k in Collect(prefix) {
          var i :| FirstUser(prefix, i, k) && Collect(prefix)[k] == FirstUse(prefix[i]);
          assert FirstUser(regs, i, k);
        } else {
          forall j | 0 <= j < |prefix|
            ensures !Uses(regs[j], k)
          {
            assert regs[j] in prefix;
          }
          assert FirstUser(regs, |prefix|, k);
        }
      }
    }
  }

  /** There is a check for a name iff some registration mentions the name. */
  lemma VerdictExists(regs: seq<Registration>, k: string)
    ensures k in Verdicts(Collect(regs)) <==> Mentioned(regs, k)
  {
    CollectKeyPresent(regs, k);
  }

  /** A check passes iff some `app.param` registration validates its name. */
  lemma VerdictPasses(regs: seq<Registration>, k: string)
    ensures k in Verdicts(Collect(regs)) ==> (Verdicts(Collect(regs))[k] <==> Validated(regs, k))
  {
    CollectKeyValidated(regs, k);
  }

  /** The verdicts do not depend on the order of the registrations. */
  lemma VerdictsOrderIndependent(a: seq<Registration>, b: seq<Registration>)
    requires multiset(a) == multiset(b)
    ensures Verdicts(Collect(a)) == Verdicts(Collect(b))
  {
    forall k
      ensures k in Verdicts(Collect(a)) <==> k in Verdicts(Collect(b))
      ensures k in Verdicts(Collect(a)) ==> Verdicts(Collect(a))[k] == Verdicts(Collect(b))[k]
    {
      VerdictExists(a, k);
      VerdictExists(b, k);
      VerdictPasses(a, k);
      VerdictPasses(b, k);
      assert forall r :: r in a <==> r in b by {
        forall r
          ensures r in a <==> r in b
        {
          assert r in a <==> r in multiset(a);
          assert r in b <==> r in multiset(b);
        }
      }
    }
  }

  /** An `app.set` registration anywhere in the scan leaves the `params` object unchanged. */
  lemma {:induction false} SetCallsIgnored(a: seq<Registration>, quoted: string, b: seq<Registration>)
    ensures Collect(a + [Registration("set", quoted)] + b) == Collect(a + b)
    decreases |b|
  {
    var s := Registration("set", quoted);
    if |b| == 0 {
      assert a + [s] + b == a + [s];
      assert (a + [s])[..|a|] == a;
      assert a + b == a;
    } else {
      var b' := b[..|b| - 1];
      var last := b[|b| - 1];
      SetCallsIgnored(a, quoted, b');
      assert (a + [s] + b)[..|a + [s] + b| - 1] == a + [s] + b';
      assert (a + b)[..|a + b| - 1] == a + b';
    }
  }
}
