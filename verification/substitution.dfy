/**
  Placeholder substitution of the policy builder: every `{Settings:Tenant}`
  becomes the tenant, then, key by key in settings order, every
  `{Settings:<key>}` becomes that key's value. Each pass is one literal
  replace-all over the text the previous pass produced.
 */
module Substitution {
  import opened Wrappers
  import opened Text
  import opened PolicySettings

  const Head: string := "Settings:"
  const TenantKey: string := "Tenant"

  /** The placeholder `{Settings:<key>}`. */
  function Token(key: string): (t: string)
    ensures |t| == |key| + 11 && t != []
    ensures t[0] == '{' && t[|t| - 1] == '}'
    ensures t[1..10] == Head && t[10..|t| - 1] == key
  {
    "{" + Head + key + "}"
  }

  /** Characters with a meaning in a JavaScript regular expression. */
  const RegexSpecial: string := "\\^$.|?*+()[]{}"

  /** A key that `new RegExp` reads literally. */
  predicate SafeKey(k: string) {
    forall i :: 0 <= i < |k| ==> k[i] !in RegexSpecial
  }

  /** A value that `String.replace` inserts literally (no `$` patterns). */
  predicate SafeValue(v: string) {
    '$' !in v
  }

  predicate SafeSettings(s: Settings) {
    forall i :: 0 <= i < |s| ==> SafeKey(s[i].0) && SafeValue(s[i].1)
  }

  lemma TenantKeySafe()
    ensures SafeKey(TenantKey)
  {
    forall i | 0 <= i < |TenantKey| ensures TenantKey[i] !in RegexSpecial {
      assert TenantKey[i] in "Tenant";
    }
  }

  /** One replace-all pass per setting, in settings order, each over the previous pass's output. */
  function KeyPasses(text: string, s: Settings): string
    decreases |s|
  {
    if s == [] then text
    else KeyPasses(ReplaceAll(text, Token(s[0].0), s[0].1), s[1..])
  }

  /** The tenant pass followed by the key passes. */
  function Substitute(text: string, tenant: string, s: Settings): string
    requires SafeValue(tenant) && SafeSettings(s)
  {
    KeyPasses(ReplaceAll(text, Token(TenantKey), tenant), s)
  }

  /** Text holding no placeholder for the tenant or for any present key. */
  predicate TokenFree(text: string, s: Settings) {
    && Absent(text, Token(TenantKey))
    && forall i :: 0 <= i < |s| ==> Absent(text, Token(s[i].0))
  }

  lemma {:induction false} KeyPassesTokenFree(text: string, s: Settings)
    requires forall i :: 0 <= i < |s| ==> Absent(text, Token(s[i].0))
    ensures KeyPasses(text, s) == text
    decreases |s|
  {
    if s != [] {
      ReplaceAllAbsent(text, Token(s[0].0), s[0].1);
      assert forall i :: 0 <= i < |s[1..]| ==> s[1..][i] == s[i + 1];
      KeyPassesTokenFree(text, s[1..]);
    }
  }

  /** Text with no recognised placeholder comes out unchanged. */
  lemma SubstituteTokenFree(text: string, tenant: string, s: Settings)
    requires SafeValue(tenant) && SafeSettings(s)
    requires TokenFree(text, s)
    ensures Substitute(text, tenant, s) == text
  {
    ReplaceAllAbsent(text, Token(TenantKey), tenant);
    KeyPassesTokenFree(text, s);
  }

  // ---------------------------------------------------------------------
  // Reference semantics: a template is literal chunks and placeholders.
  // ---------------------------------------------------------------------

  datatype Piece = Lit(text: string) | Tok(key: string)

  function RenderPiece(p: Piece): string {
    match p
    case Lit(s) => s
    case Tok(k) => Token(k)
  }

  function Render(t: seq<Piece>): string {
    if t == [] then [] else RenderPiece(t[0]) + Render(t[1..])
  }

  /**
    A literal chunk that cannot take part in a placeholder: each `{` in it is
    followed, inside the chunk, by a character that departs from `Settings:`,
    so no placeholder can start there whatever text comes after the chunk.
   */
  predicate Inert(s: string) {
    forall i :: 0 <= i < |s| && s[i] == '{' ==> Departs(s, i + 1)
  }

  /** Some character of `s` from index `n` on differs from the aligned character of `Settings:`. */
  predicate Departs(s: string, n: nat) {
    exists m :: 0 <= m < |Head| && n + m < |s| && s[n + m] != Head[m]
  }

  predicate PieceOk(p: Piece) {
    match p
    case Lit(s) => Inert(s)
    case Tok(k) => SafeKey(k)
  }

  predicate WellFormed(t: seq<Piece>) {
    forall i :: 0 <= i < |t| ==> PieceOk(t[i])
  }

  /** Settings whose keys are literal and whose values are inert text. */
  predicate InertSettings(s: Settings) {
    forall i :: 0 <= i < |s| ==> SafeKey(s[i].0) && SafeValue(s[i].1) && Inert(s[i].1)
  }

  /** What a placeholder stands for: the tenant first, then the settings, else itself. */
  function ResolvePiece(p: Piece, tenant: string, s: Settings): Piece {
    match p
    case Lit(_) => p
    case Tok(k) =>
      if k == TenantKey then Lit(tenant)
      else
        match Lookup(s, k)
        case Some(v) => Lit(v)
        case None => p
  }

  function ResolveAll(t: seq<Piece>, tenant: string, s: Settings): (r: seq<Piece>)
    ensures |r| == |t|
    ensures forall i :: 0 <= i < |t| ==> r[i] == ResolvePiece(t[i], tenant, s)
  {
    if t == [] then [] else [ResolvePiece(t[0], tenant, s)] + ResolveAll(t[1..], tenant, s)
  }

  lemma InertNoMatch(a: string, b: string, k: string)
    requires Inert(a)
    ensures NoMatchBefore(a + b, Token(k), |a|)
  {
    var s, pat := a + b, Token(k);
    forall i: nat | i < |a|
      ensures !MatchAt(s, pat, i)
    {
      if i + |pat| <= |s| {
        var w := s[i..i + |pat|];
        if a[i] != '{' {
          assert w[0] != pat[0];
        } else {
          assert Departs(a, i + 1);
          var m :| 0 <= m < |Head| && i + 1 + m < |a| && a[i + 1 + m] != Head[m];
          assert w[1 + m] == a[i + 1 + m];
          assert pat[1 + m] == Head[m];
        }
      }
    }
  }

  /** A placeholder for one key never starts where a different key's placeholder starts. */
  lemma TokenStartDiffers(j: string, k: string, b: string)
    requires SafeKey(j) && SafeKey(k) && j != k
    ensures !MatchAt(Token(j) + b, Token(k), 0)
  {
    var s, tk, tj := Token(j) + b, Token(k), Token(j);
    assert '}' in RegexSpecial;
    if |tk| <= |s| {
      var w := s[..|tk|];
      if |k| < |j| {
        assert tk[10 + |k|] == '}';
        assert w[10 + |k|] == tj[10 + |k|] == j[|k|];
      } else if |k| > |j| {
        assert w[10 + |j|] == tj[10 + |j|] == '}';
        assert tk[10 + |j|] == k[|j|];
      } else {
        assert exists m :: 0 <= m < |k| && j[m] != k[m];
        var m :| 0 <= m < |k| && j[m] != k[m];
        assert w[10 + m] == tj[10 + m] == j[m];
        assert tk[10 + m] == k[m];
      }
    }
  }

  lemma TokenSkip(j: string, k: string, b: string)
    requires SafeKey(j) && SafeKey(k) && j != k
    ensures NoMatchBefore(Token(j) + b, Token(k), |Token(j)|)
  {
    var s, tj, tk := Token(j) + b, Token(j), Token(k);
    assert '{' in RegexSpecial;
    TokenStartDiffers(j, k, b);
    forall i: nat | 0 < i < |tj|
      ensures !MatchAt(s, tk, i)
    {
      if i + |tk| <= |s| {
        assert s[i..i + |tk|][0] == s[i] == tj[i];
        if i < 10 {
          assert tj[i] == Head[i - 1];
        } else if i < |tj| - 1 {
          assert tj[i] == j[i - 10];
        }
      }
    }
  }

  function PassPiece(p: Piece, k: string, v: string): Piece {
    if p == Tok(k) then Lit(v) else p
  }

  /** The pass for key `k` on a template: its placeholders become `v`. */
  function Pass(t: seq<Piece>, k: string, v: string): (r: seq<Piece>)
    ensures |r| == |t|
    ensures forall i :: 0 <= i < |t| ==> r[i] == PassPiece(t[i], k, v)
  {
    if t == [] then [] else [PassPiece(t[0], k, v)] + Pass(t[1..], k, v)
  }

  /** One replace-all pass over a rendered well-formed template is the pass on the template. */
  lemma {:induction false} PassRender(t: seq<Piece>, k: string, v: string)
    requires WellFormed(t) && SafeKey(k)
    ensures ReplaceAll(Render(t), Token(k), v) == Render(Pass(t, k, v))
  {
    if t != [] {
      assert WellFormed(t[1..]) by {
        forall i | 0 <= i < |t[1..]| ensures PieceOk(t[1..][i]) { assert t[1..][i] == t[i + 1]; }
      }
      PassRender(t[1..], k, v);
      assert PieceOk(t[0]);
      assert Pass(t, k, v) == [PassPiece(t[0], k, v)] + Pass(t[1..], k, v);
      PassPieceRender(t[0], Render(t[1..]), k, v);
    }
  }

  /** The pass over a piece followed by any text: the piece is handled, then scanning goes on after it. */
  lemma PassPieceRender(p: Piece, rest: string, k: string, v: string)
    requires PieceOk(p) && SafeKey(k)
    ensures ReplaceAll(RenderPiece(p) + rest, Token(k), v) == RenderPiece(PassPiece(p, k, v)) + ReplaceAll(rest, Token(k), v)
  {
    match p
    case Lit(s) =>
      InertNoMatch(s, rest, k);
      ReplaceAllSkip(s, rest, Token(k), v);
    case Tok(j) =>
      if j == k {
        assert [] + Token(k) + rest == Token(k) + rest;
        ReplaceAllLeftmost([], Token(k), rest, v);
      } else {
        TokenSkip(j, k, rest);
        ReplaceAllSkip(Token(j), rest, Token(k), v);
      }
  }

  lemma PassWellFormed(t: seq<Piece>, k: string, v: string)
    requires WellFormed(t) && Inert(v)
    ensures WellFormed(Pass(t, k, v))
  {
    forall i | 0 <= i < |t| ensures PieceOk(Pass(t, k, v)[i]) {
      assert PieceOk(t[i]);
    }
  }

  /** The key passes' combined effect on a template: each placeholder of a present key takes its value. */
  function KeyPiece(p: Piece, s: Settings): Piece {
    match p
    case Lit(_) => p
    case Tok(k) =>
      match Lookup(s, k)
      case Some(v) => Lit(v)
      case None => p
  }

  function KeyResolve(t: seq<Piece>, s: Settings): (r: seq<Piece>)
    ensures |r| == |t|
    ensures forall i :: 0 <= i < |t| ==> r[i] == KeyPiece(t[i], s)
  {
    if t == [] then [] else [KeyPiece(t[0], s)] + KeyResolve(t[1..], s)
  }

  lemma KeyResolveAfterPass(t: seq<Piece>, s: Settings)
    requires s != []
    ensures KeyResolve(Pass(t, s[0].0, s[0].1), s[1..]) == KeyResolve(t, s)
  {
    var l, r := KeyResolve(Pass(t, s[0].0, s[0].1), s[1..]), KeyResolve(t, s);
    forall i | 0 <= i < |t| ensures l[i] == r[i] {
      match t[i]
      case Lit(_) =>
      case Tok(k) =>
    }
  }

  lemma {:induction false} KeyPassesRender(t: seq<Piece>, s: Settings)
    requires WellFormed(t) && InertSettings(s)
    ensures KeyPasses(Render(t), s) == Render(KeyResolve(t, s))
    decreases |s|
  {
    if s != [] {
      var k, v := s[0].0, s[0].1;
      assert SafeKey(k) && Inert(v);
      PassRender(t, k, v);
      PassWellFormed(t, k, v);
      assert InertSettings(s[1..]) by {
        forall i | 0 <= i < |s[1..]| ensures SafeKey(s[1..][i].0) && SafeValue(s[1..][i].1) && Inert(s[1..][i].1) {
          assert s[1..][i] == s[i + 1];
        }
      }
      KeyPassesRender(Pass(t, k, v), s[1..]);
      KeyResolveAfterPass(t, s);
      calc {
        KeyPasses(Render(t), s);
        KeyPasses(ReplaceAll(Render(t), Token(k), v), s[1..]);
        KeyPasses(Render(Pass(t, k, v)), s[1..]);
        Render(KeyResolve(Pass(t, k, v), s[1..]));
      }
    } else {
      var r := KeyResolve(t, s);
      forall i | 0 <= i < |t| ensures r[i] == t[i] {
        match t[i]
        case Lit(_) =>
        case Tok(_) =>
      }
      assert r == t;
    }
  }

  /**
    On a well-formed template, substitution is placeholder-wise resolution:
    `{Settings:Tenant}` always becomes the tenant, a present key's placeholder
    becomes its value, an unknown placeholder stays verbatim, and inserted
    values are never rewritten.
   */
  lemma SubstituteTemplate(t: seq<Piece>, tenant: string, s: Settings)
    requires WellFormed(t) && Inert(tenant) && SafeValue(tenant) && InertSettings(s)
    ensures Substitute(Render(t), tenant, s) == Render(ResolveAll(t, tenant, s))
  {
    var after := Pass(t, TenantKey, tenant);
    TenantKeySafe();
    PassRender(t, TenantKey, tenant);
    assert ReplaceAll(Render(t), Token(TenantKey), tenant) == Render(after);
    PassWellFormed(t, TenantKey, tenant);
    KeyPassesRender(after, s);
    TenantThenKeys(t, tenant, s);
  }

  /** Resolving the tenant and then the keys is resolving both at once. */
  lemma TenantThenKeys(t: seq<Piece>, tenant: string, s: Settings)
    ensures KeyResolve(Pass(t, TenantKey, tenant), s) == ResolveAll(t, tenant, s)
  {
    var l, r := KeyResolve(Pass(t, TenantKey, tenant), s), ResolveAll(t, tenant, s);
    forall i | 0 <= i < |t| ensures l[i] == r[i] {
      match t[i]
      case Lit(_) =>
      case Tok(k) =>
    }
    assert l == r;
  }

  /**
    Under the same conditions, only the settings' answers for keys other than
    `Tenant` matter: a `Tenant` setting is ignored and the order of distinct
    keys is irrelevant.
   */
  lemma SubstituteTenantFirst(t: seq<Piece>, tenant: string, s1: Settings, s2: Settings)
    requires WellFormed(t) && Inert(tenant) && SafeValue(tenant)
    requires InertSettings(s1) && InertSettings(s2)
    requires forall k :: k != TenantKey ==> Lookup(s1, k) == Lookup(s2, k)
    ensures Substitute(Render(t), tenant, s1) == Substitute(Render(t), tenant, s2)
  {
    SubstituteTemplate(t, tenant, s1);
    SubstituteTemplate(t, tenant, s2);
    var r1, r2 := ResolveAll(t, tenant, s1), ResolveAll(t, tenant, s2);
    forall i | 0 <= i < |t| ensures r1[i] == r2[i] {
      match t[i]
      case Lit(_) =>
      case Tok(k) =>
    }
    assert r1 == r2;
  }

  // ---------------------------------------------------------------------
  // Worked instances.
  // ---------------------------------------------------------------------

  /** `tenant={Settings:Tenant}` with tenant `contoso` gives `tenant=contoso`, and a second run changes nothing. */
  lemma TenantExample()
    ensures Substitute("tenant=" + Token(TenantKey), "contoso", []) == "tenant=contoso"
  {
    var a, tok := "tenant=", Token(TenantKey);
    assert a + tok == a + tok + [];
    assert NoMatchBefore(a + tok + [], tok, |a|) by {
      forall i: nat | i < |a| ensures !MatchAt(a + tok + [], tok, i) {
        assert (a + tok + [])[i] == a[i] != '{';
      }
    }
    ReplaceAllLeftmost(a, tok, [], "contoso");
  }

  /** Substituting the result again is a no-op. */
  lemma TenantExampleStable()
    ensures Substitute("tenant=contoso", "contoso", []) == "tenant=contoso"
  {
    var tok := Token(TenantKey);
    assert Absent("tenant=contoso", tok);
    ReplaceAllAbsent("tenant=contoso", tok, "contoso");
  }

  lemma ReplaceWhole(k: string, v: string)
    ensures ReplaceAll(Token(k), Token(k), v) == v
  {
    assert [] + Token(k) + [] == Token(k);
    ReplaceAllLeftmost([], Token(k), [], v);
  }

  /**
    With a value that is itself a placeholder, a later key's pass rewrites
    what an earlier key's pass inserted: `{Settings:A}` with `A` set to
    `{Settings:B}` and `B` to `x` comes out as `x`.
   */
  lemma ChainedPasses()
    ensures Substitute(Token("A"), "contoso", [("A", Token("B")), ("B", "x")]) == "x"
  {
    assert Absent(Token("A"), Token(TenantKey));
    ReplaceAllAbsent(Token("A"), Token(TenantKey), "contoso");
    ReplaceWhole("A", Token("B"));
    ReplaceWhole("B", "x");
  }

  /**
    The tenant pass runs first, yet a `Tenant` setting can still change the
    output when an earlier key's value inserts `{Settings:Tenant}`.
   */
  lemma TenantSettingCanMatter()
    ensures Substitute(Token("A"), "contoso", [("A", Token(TenantKey))]) == Token(TenantKey)
    ensures Substitute(Token("A"), "contoso", [("A", Token(TenantKey)), (TenantKey, "fabrikam")]) == "fabrikam"
  {
    var text, tok := Token("A"), Token(TenantKey);
    assert Absent(text, tok);
    ReplaceAllAbsent(text, tok, "contoso");
    ReplaceWhole("A", tok);
    ReplaceWhole(TenantKey, "fabrikam");
    var s1 := [("A", tok)];
    var s2 := [("A", tok), (TenantKey, "fabrikam")];
    assert KeyPasses(text, s1) == KeyPasses(tok, []) == tok;
    assert s2[1..] == [(TenantKey, "fabrikam")];
    assert KeyPasses(text, s2) == KeyPasses(tok, s2[1..]) == KeyPasses("fabrikam", []) == "fabrikam";
  }
}
