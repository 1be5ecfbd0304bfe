/** Who holds the page credits that are not stored with a session. */
module PageClaims {

  /** A live request context, or the session of a victim between its removal and the return of its credits. */
  datatype Claim = Context(id: nat) | Victim(key: nat)

  /** The pages a claim holds and the session keys that are its own. */
  datatype Grant = Grant(pages: nat, keys: set<nat>)

  type Claims = map<Claim, Grant>

  ghost function Total(m: Claims): nat {
    if m == map[] then 0
    else
      var c :| c in m;
      m[c].pages + Total(m - {c})
  }

  lemma {:induction false} TotalWithout(m: Claims, c: Claim)
    requires c in m
    ensures Total(m) == m[c].pages + Total(m - {c})
    decreases |m|
  {
    var d :| d in m && Total(m) == m[d].pages + Total(m - {d});
    if c != d {
      TotalWithout(m - {d}, c);
      TotalWithout(m - {c}, d);
      assert m - {d} - {c} == m - {c} - {d};
    }
  }

  /** Replacing one grant moves the total by the difference. */
  lemma TotalSet(m: Claims, c: Claim, g: Grant)
    ensures Total(m[c := g]) == Total(m - {c}) + g.pages
    ensures c in m ==> Total(m[c := g]) + m[c].pages == Total(m) + g.pages
    ensures c !in m ==> Total(m[c := g]) == Total(m) + g.pages
  {
    TotalWithout(m[c := g], c);
    assert m[c := g] - {c} == m - {c};
    if c in m {
      TotalWithout(m, c);
    } else {
      assert m - {c} == m;
    }
  }
}
