/**
  The idempotency key of an action: forty digits of the hash of its canonical description.
  It identifies the action exactly as long as the shortened hash does not collide.
 */
module IdempotencyKey {
  import opened Common
  import opened CanonicalJson
  import opened AuditChain

  const KEY_LENGTH := 40

  /** What is requested: `params` is the dictionary of parameters in key order. */
  datatype Action = Action(merchant: string, kind: string, params: seq<Field>, incident: Option<string>)

  function Description(a: Action): Json {
    Object([
      Field("i", match a.incident case None => Null case Some(i) => Text(i)),
      Field("k", Text(a.kind)), Field("m", Text(a.merchant)), Field("p", Object(a.params))])
  }

  ghost function KeyOf(sha: Sha, a: Action): string
    requires HexDigests(sha)
  {
    var digest := sha(Canonical(Description(a)));
    assert Digest(digest);
    digest[..KEY_LENGTH]
  }

  lemma DescriptionInjective(a: Action, b: Action)
    requires Canonical(Description(a)) == Canonical(Description(b))
    ensures a == b
  {
    CanonicalInjective(Description(a), Description(b));
    var f, g := Description(a).fields, Description(b).fields;
    assert f[0] == g[0] && f[1] == g[1] && f[2] == g[2] && f[3] == g[3];
  }

  /** The shortened hash tells these two texts apart. */
  ghost predicate ShortHashSeparates(sha: Sha, x: string, y: string)
    requires HexDigests(sha)
  {
    assert Digest(sha(x)) && Digest(sha(y));
    sha(x)[..KEY_LENGTH] == sha(y)[..KEY_LENGTH] ==> x == y
  }

  /** Two requests get the same execution exactly when they ask for the same action. */
  lemma KeyIdentifiesAction(sha: Sha, a: Action, b: Action)
    requires HexDigests(sha) && ShortHashSeparates(sha, Canonical(Description(a)), Canonical(Description(b)))
    ensures KeyOf(sha, a) == KeyOf(sha, b) <==> a == b
  {
    if KeyOf(sha, a) == KeyOf(sha, b) {
      DescriptionInjective(a, b);
    }
  }
}
