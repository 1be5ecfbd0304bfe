/** Value names as text: distinct values of a program have distinct names. */
module ProgramNames {
  import opened ProgramCheck
  import Json = JsonValues

  predicate AllDigits(s: string) { forall c :: c in s ==> Json.IsDigit(c) }

  lemma DecimalDigits(n: nat)
    ensures AllDigits(Json.Decimal(n)) && Json.Decimal(n) != []
  {}

  lemma DecimalInjective(m: nat, n: nat)
    requires Json.Decimal(m) == Json.Decimal(n)
    ensures m == n
  {
    Json.DecimalDenotes(m);
    Json.DecimalDenotes(n);
  }

  function OrganText(o: Organ): string {
    match o
    case AfterBlock => "after_block"
    case AfterAttention => "after_attention"
    case AfterPle => "after_ple"
    case ExpertInput => "expert_input"
    case RouteIndices => "route_indices"
    case RouteWeights => "route_weights"
    case Residual => "residual"
    case SharedOutput => "shared_output"
    case AttentionReadHidden => "attention_read.hidden"
    case AttentionReadRetained => "attention_read.retained"
    case AttentionReadInjection => "attention_read.injection"
    case AttentionOutput => "attention_output"
    case MlpReadHidden => "mlp_read.hidden"
    case MlpReadRetained => "mlp_read.retained"
    case MlpReadInjection => "mlp_read.injection"
    case MlpOutput => "mlp_output"
  }

  /** Length, first and seventh letter tell the organs apart. */
  function OrganKey(o: Organ): (nat, char, char) {
    match o
    case AfterBlock => (11, 'a', 'b')
    case AfterAttention => (15, 'a', 'a')
    case AfterPle => (9, 'a', 'p')
    case ExpertInput => (12, 'e', '_')
    case RouteIndices => (13, 'r', 'i')
    case RouteWeights => (13, 'r', 'w')
    case Residual => (8, 'r', 'a')
    case SharedOutput => (13, 's', '_')
    case AttentionReadHidden => (21, 'a', 'i')
    case AttentionReadRetained => (23, 'a', 'i')
    case AttentionReadInjection => (24, 'a', 'i')
    case AttentionOutput => (16, 'a', 'i')
    case MlpReadHidden => (15, 'm', 'a')
    case MlpReadRetained => (17, 'm', 'a')
    case MlpReadInjection => (18, 'm', 'a')
    case MlpOutput => (10, 'm', 't')
  }

  lemma OrganKeyOfText(o: Organ)
    ensures |OrganText(o)| >= 8 && OrganKey(o) == (|OrganText(o)|, OrganText(o)[0], OrganText(o)[6])
  {}

  lemma OrganInjective(a: Organ, b: Organ)
    requires OrganText(a) == OrganText(b)
    ensures a == b
  {
    OrganKeyOfText(a);
    OrganKeyOfText(b);
    hide OrganText;
  }

  function Render(v: Value): string {
    match v
    case RequestTokens => "request.token_ids"
    case RequestPositions => "request.positions"
    case RequestMultimodal => "request.multimodal"
    case ResponseTokens => "response.token_ids"
    case EmbeddingHidden => "embedding.hidden"
    case FinalHidden => "final.hidden"
    case HiddenText => "hidden.text"
    case Hidden(n) => "hidden." + Json.Decimal(n)
    case Hyper(n) => "hyper." + Json.Decimal(n)
    case Local(l, o) => "layer." + (Json.Decimal(l) + ("." + OrganText(o)))
  }

  /** The letters that tell the kinds of names apart; a digit counts as `#`. */
  function Mark(c: char): char { if '0' <= c <= '9' then '#' else c }

  function Kind(v: Value): (char, char, char) {
    match v
    case RequestTokens => ('r', 'q', 't')
    case RequestPositions => ('r', 'q', 'p')
    case RequestMultimodal => ('r', 'q', 'm')
    case ResponseTokens => ('r', 's', ' ')
    case EmbeddingHidden => ('e', ' ', ' ')
    case FinalHidden => ('f', ' ', ' ')
    case HiddenText => ('h', 'd', 't')
    case Hidden(_) => ('h', 'd', '#')
    case Hyper(_) => ('h', 'p', ' ')
    case Local(_, _) => ('l', ' ', ' ')
  }

  function KindOfText(s: string): (char, char, char)
    requires |s| >= 7
  {
    var a, b := s[0], s[2];
    if a == 'r' then (a, b, if b == 'q' && |s| > 8 then s[8] else ' ')
    else if a == 'h' then (a, b, if b == 'd' && |s| > 7 then Mark(s[7]) else ' ')
    else (a, ' ', ' ')
  }

  lemma KindIsSeen(v: Value)
    ensures |Render(v)| >= 7 && KindOfText(Render(v)) == Kind(v)
  {
    match v
    case Hidden(n) =>
      DecimalDigits(n);
      assert Render(v)[7] == Json.Decimal(n)[0] && Json.Decimal(n)[0] in Json.Decimal(n);
    case Hyper(n) => assert |Json.Decimal(n)| >= 1;
    case Local(l, o) => assert |Json.Decimal(l)| >= 1;
    case _ =>
  }

  lemma DotFirst(a: string, x: string)
    requires AllDigits(a)
    ensures (a + ("." + x))[0] == '.' <==> a == []
  {
    if a != [] {
      assert a[0] in a;
    }
  }

  /** A number ends at the first dot after it. */
  lemma {:induction false} DotSplits(a: string, x: string, b: string, y: string)
    requires AllDigits(a) && AllDigits(b) && a + ("." + x) == b + ("." + y)
    ensures a == b && x == y
  {
    var s, t := a + ("." + x), b + ("." + y);
    DotFirst(a, x);
    DotFirst(b, y);
    assert s[0] == t[0];
    if a == [] {
      assert s[1..] == x && t[1..] == y;
    } else {
      assert s[0] == a[0] && t[0] == b[0];
      assert s[1..] == a[1..] + ("." + x) && t[1..] == b[1..] + ("." + y);
      assert forall c :: c in a[1..] ==> c in a;
      assert forall c :: c in b[1..] ==> c in b;
      DotSplits(a[1..], x, b[1..], y);
      assert a == [a[0]] + a[1..] && b == [b[0]] + b[1..];
    }
  }

  lemma PrefixCancels(p: string, a: string, b: string)
    requires p + a == p + b
    ensures a == b
  {
    assert (p + a)[|p|..] == a && (p + b)[|p|..] == b;
  }

  /** No two values share a name, so checking names is checking values. */
  lemma RenderInjective(v: Value, w: Value)
    requires Render(v) == Render(w)
    ensures v == w
  {
    KindIsSeen(v);
    KindIsSeen(w);
    assert Kind(v) == Kind(w);
    hide KindOfText, Json.Decimal, OrganText;
    match v
    case Hidden(n) =>
      PrefixCancels("hidden.", Json.Decimal(n), Json.Decimal(w.boundary));
      DecimalInjective(n, w.boundary);
    case Hyper(n) =>
      PrefixCancels("hyper.", Json.Decimal(n), Json.Decimal(w.boundary));
      DecimalInjective(n, w.boundary);
    case Local(l, o) =>
      PrefixCancels("layer.", Json.Decimal(l) + ("." + OrganText(o)), Json.Decimal(w.layer) + ("." + OrganText(w.organ)));
      DecimalDigits(l);
      DecimalDigits(w.layer);
      DotSplits(Json.Decimal(l), OrganText(o), Json.Decimal(w.layer), OrganText(w.organ));
      DecimalInjective(l, w.layer);
      OrganInjective(o, w.organ);
    case _ =>
  }
}
