/**
 * `HTTPMethod<Body>`: the request methods GET, POST, PUT and DELETE of
 * section 9.3 of RFC 9110, where POST and PUT carry a body.
 */
module HTTPMethods {

  datatype HTTPMethod<+Body> = Get | Post(body: Body) | Put(body: Body) | Delete {

    /** `method`: the method token sent on the request line. */
    function Method(): string {
      match this
      case Get => "GET"
      case Post(_) => "POST"
      case Put(_) => "PUT"
      case Delete => "DELETE"
    }

    /** `map`: transforms the body of a POST or PUT and keeps the case. */
    function Map<B>(f: Body -> B): HTTPMethod<B> {
      match this
      case Get => Get
      case Post(body) => Post(f(body))
      case Put(body) => Put(f(body))
      case Delete => Delete
    }

    /** Whether the method carries a body: POST and PUT. */
    predicate HasBody() {
      Post? || Put?
    }
  }

  /** Two methods are the same case of the enum, whatever their bodies. */
  predicate SameCase<A, B>(m: HTTPMethod<A>, n: HTTPMethod<B>) {
    (m.Get? <==> n.Get?) && (m.Post? <==> n.Post?) && (m.Put? <==> n.Put?) && (m.Delete? <==> n.Delete?)
  }

  /** The four tokens, and the token determines the case. */
  lemma MethodTokens<A>(m: HTTPMethod<A>, n: HTTPMethod<A>)
    ensures m.Get? ==> m.Method() == "GET"
    ensures m.Delete? ==> m.Method() == "DELETE"
    ensures m.Post? ==> m.Method() == "POST"
    ensures m.Put? ==> m.Method() == "PUT"
    ensures m.Method() == n.Method() <==> SameCase(m, n)
  {
  }

  /**
   * `map` keeps the case and the method token, applies `f` exactly to a
   * POST or PUT body, and gives GET and DELETE back whatever `f` is.
   */
  lemma MapPreservesShape<A, B>(m: HTTPMethod<A>, f: A -> B, g: A -> B)
    ensures SameCase(m.Map(f), m)
    ensures m.Map(f).Method() == m.Method()
    ensures m.HasBody() ==> m.Map(f).body == f(m.body)
    ensures !m.HasBody() ==> m.Map(f) == m.Map(g)
  {
  }

  /** Functor identity law. */
  lemma MapIdentity<A>(m: HTTPMethod<A>)
    ensures m.Map(x => x) == m
  {
  }

  /** Functor composition law. */
  lemma MapComposition<A, B, C>(m: HTTPMethod<A>, f: A -> B, g: B -> C)
    ensures m.Map(f).Map(g) == m.Map(x => g(f(x)))
  {
  }
}
