/** How a message is identified in its account. */
module MessageIdentity {
  import opened Domain

  datatype IdentityRule = Generic | Gmail

  const DIGITS := "0123456789"

  function Decimal(n: nat): (s: string)
    ensures s != []
    ensures forall i :: 0 <= i < |s| ==> s[i] in DIGITS
  {
    if n < 10 then [DIGITS[n]] else Decimal(n / 10) + [DIGITS[n % 10]]
  }

  lemma LastDigit(n: nat)
    requires n >= 10
    ensures Decimal(n)[..|Decimal(n)| - 1] == Decimal(n / 10)
    ensures Decimal(n)[|Decimal(n)| - 1] == DIGITS[n % 10]
  {
  }

  lemma {:induction false} DecimalInjective(m: nat, n: nat)
    requires Decimal(m) == Decimal(n)
    ensures m == n
  {
    if m < 10 || n < 10 {
      assert |Decimal(m)| == 1 || |Decimal(n)| == 1;
    }
    if m >= 10 && n >= 10 {
      LastDigit(m);
      LastDigit(n);
      DecimalInjective(m / 10, n / 10);
    }
  }

  function Place(validity: nat, uid: nat): string {
    Decimal(validity) + "/" + Decimal(uid)
  }

  /** A Generic IMAP message's identity is its place, which the numbering version
      belongs to; a Gmail message's the same in every label. */
  function IdentityOf(rule: IdentityRule, folder: string, validity: nat, uid: nat, gmail: Option<nat>): Option<string> {
    match rule
    case Generic => Some("imap:" + folder + "/" + Place(validity, uid))
    case Gmail => if gmail.Some? then Some("gmail:" + Decimal(gmail.value)) else None
  }

  lemma SplitAtSlash(a: string, b: string, c: string, d: string)
    requires a + "/" + b == c + "/" + d
    requires '/' !in a && '/' !in c
    ensures a == c && b == d
  {
    var s := a + "/" + b;
    assert s[|a|] == '/' && s[|c|] == '/';
    assert forall i :: 0 <= i < |a| ==> s[i] == a[i] && a[i] in a;
    assert forall i :: 0 <= i < |c| ==> s[i] == c[i] && c[i] in c;
    assert a == s[..|a|] && c == s[..|c|];
    assert b == s[|a| + 1..] && d == s[|c| + 1..];
  }

  /** No two places of a Generic folder share an identity, whatever numbering
      they belong to: a renumbered folder never reuses a row. */
  lemma GenericIdentityIsThePlace(folder: string, v: nat, u: nat, g: Option<nat>, v': nat, u': nat, g': Option<nat>)
    requires IdentityOf(Generic, folder, v, u, g) == IdentityOf(Generic, folder, v', u', g')
    ensures v == v' && u == u'
  {
    SamePrefix("imap:" + folder + "/", Place(v, u), Place(v', u'));
    SplitAtSlash(Decimal(v), Decimal(u), Decimal(v'), Decimal(u'));
    DecimalInjective(v, v');
    DecimalInjective(u, u');
  }

  lemma SamePrefix(prefix: string, s: string, t: string)
    requires prefix + s == prefix + t
    ensures s == t
  {
    assert s == (prefix + s)[|prefix|..] && t == (prefix + t)[|prefix|..];
  }

  lemma LastSlashIsLast(a: string, b: string, c: string, d: string)
    requires a + "/" + b == c + "/" + d && '/' !in b
    ensures |c| <= |a|
  {
    var s := a + "/" + b;
    assert s[|c|] == '/';
    assert forall i :: |a| < i < |s| ==> s[i] == b[i - |a| - 1] && b[i - |a| - 1] in b;
  }

  /** The parts around the last slash are determined. */
  lemma SplitAtLastSlash(a: string, b: string, c: string, d: string)
    requires a + "/" + b == c + "/" + d
    requires '/' !in b && '/' !in d
    ensures a == c && b == d
  {
    var s := a + "/" + b;
    LastSlashIsLast(a, b, c, d);
    LastSlashIsLast(c, d, a, b);
    assert a == s[..|a|] && c == s[..|c|];
    assert b == s[|a| + 1..] && d == s[|c| + 1..];
  }

  /** Nor do two folders' messages, and none shares one with a Gmail message. */
  lemma IdentitiesTellFolders(folder: string, v: nat, u: nat, g: Option<nat>, folder': string, v': nat, u': nat, g': Option<nat>)
    ensures IdentityOf(Generic, folder, v, u, g) == IdentityOf(Generic, folder', v', u', g') <==>
              folder == folder' && v == v' && u == u'
    ensures IdentityOf(Generic, folder, v, u, g) != IdentityOf(Gmail, folder', v', u', g')
  {
    hide Decimal;
    var all := "imap:" + folder + "/" + Place(v, u);
    assert all[0] == 'i';
    if g'.Some? {
      assert IdentityOf(Gmail, folder', v', u', g').value[0] == 'g';
    }
    if IdentityOf(Generic, folder, v, u, g) == IdentityOf(Generic, folder', v', u', g') {
      PlacesAreTold(folder, Decimal(v), Decimal(u), folder', Decimal(v'), Decimal(u'));
      DecimalInjective(u, u');
      DecimalInjective(v, v');
    }
  }

  lemma PlacesAreTold(folder: string, v: string, u: string, folder': string, v': string, u': string)
    requires "imap:" + folder + "/" + (v + "/" + u) == "imap:" + folder' + "/" + (v' + "/" + u')
    requires '/' !in v && '/' !in u && '/' !in v' && '/' !in u'
    ensures folder == folder' && v == v' && u == u'
  {
    var front, front' := "imap:" + folder + "/" + v, "imap:" + folder' + "/" + v';
    assert "imap:" + folder + "/" + (v + "/" + u) == front + "/" + u;
    assert "imap:" + folder' + "/" + (v' + "/" + u') == front' + "/" + u';
    SplitAtLastSlash(front, u, front', u');
    SplitAtLastSlash("imap:" + folder, v, "imap:" + folder', v');
    SamePrefix("imap:", folder, folder');
  }

  lemma GmailIdentityIsItsNumber(folder: string, v: nat, u: nat, g: nat, u': nat, g': nat)
    requires IdentityOf(Gmail, folder, v, u, Some(g)) == IdentityOf(Gmail, folder, v, u', Some(g'))
    ensures g == g'
  {
    SamePrefix("gmail:", Decimal(g), Decimal(g'));
    DecimalInjective(g, g');
  }
}
