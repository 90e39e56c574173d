/** The cache key of a rendered fragment: every field that decides what it says, in one string. */
module FragmentKey {
  import opened Base
  import opened Text

  datatype Fields = Fields(
    route: string,
    version: Option<u64>,
    catalog: string,
    region: string,
    baselineDays: u64,
    realm: string,
    locale: string,
    group: Option<string>)

  function VersionText(v: Option<u64>): string { if v.Some? then Decimal(v.value) else "-" }

  function GroupText(g: Option<string>): string { if g.Some? then g.value else "*" }

  // `{route}|v{version}|{catalog}|{region}|{days}d|{realm}|{locale}|{group}`.
  function Parts(f: Fields): seq<string> {
    [f.route, "v" + VersionText(f.version), f.catalog, f.region, Decimal(f.baselineDays) + "d", f.realm, f.locale,
     GroupText(f.group)]
  }

  function Join(parts: seq<string>): string {
    if parts == [] then ""
    else if |parts| == 1 then parts[0]
    else parts[0] + ("|" + Join(parts[1..]))
  }

  function KeyOf(f: Fields): string { Join(Parts(f)) }

  predicate NoBar(s: string) { '|' !in s }

  predicate Barless(f: Fields) {
    NoBar(f.route) && NoBar(f.catalog) && NoBar(f.region) && NoBar(f.realm) && NoBar(f.locale)
    && (f.group.Some? ==> NoBar(f.group.value))
  }

  // The first bar ends the first field.
  lemma FirstFieldIsRead(a: string, x: string, b: string, y: string)
    requires NoBar(a) && NoBar(b) && a + ("|" + x) == b + ("|" + y)
    ensures a == b && x == y
  {
    var s, t := a + ("|" + x), b + ("|" + y);
    assert s[|a|] == '|' && t[|b|] == '|';
    assert forall i :: 0 <= i < |a| ==> s[i] == a[i];
    assert forall i :: 0 <= i < |b| ==> t[i] == b[i];
    assert |a| == |b|;
    assert a == s[..|a|] && b == t[..|b|];
    assert x == s[|a| + 1..] && y == t[|b| + 1..];
  }

  lemma DecimalHasNoBar(n: nat)
    ensures NoBar(Decimal(n))
  {
  }

  lemma VersionTextIsInjective(a: Option<u64>, b: Option<u64>)
    ensures NoBar("v" + VersionText(a))
    ensures "v" + VersionText(a) == "v" + VersionText(b) ==> a == b
  {
    if a.Some? { DecimalHasNoBar(a.value); }
    if "v" + VersionText(a) == "v" + VersionText(b) {
      assert VersionText(a) == ("v" + VersionText(a))[1..] == ("v" + VersionText(b))[1..] == VersionText(b);
      if a.Some? && b.Some? { DecimalIsInjective(a.value, b.value); }
      if a.Some? { assert IsDigit(Decimal(a.value)[0]); }
      if b.Some? { assert IsDigit(Decimal(b.value)[0]); }
    }
  }

  lemma DaysTextIsInjective(a: u64, b: u64)
    ensures NoBar(Decimal(a) + "d")
    ensures Decimal(a) + "d" == Decimal(b) + "d" ==> a == b
  {
    DecimalHasNoBar(a);
    var s, t := Decimal(a) + "d", Decimal(b) + "d";
    if s == t {
      assert Decimal(a) == s[..|s| - 1] == t[..|t| - 1] == Decimal(b);
      DecimalIsInjective(a, b);
    }
  }

  // ---------- reading a key back ----------

  // The last bar starts the last field.
  lemma LastFieldIsRead(x: string, a: string, y: string, b: string)
    requires NoBar(a) && NoBar(b) && x + ("|" + a) == y + ("|" + b)
    ensures x == y && a == b
  {
    var s, t := x + ("|" + a), y + ("|" + b);
    assert s[|x|] == '|' && t[|y|] == '|';
    assert forall i :: 0 <= i < |a| ==> s[|x| + 1 + i] == a[i];
    assert forall i :: 0 <= i < |b| ==> t[|y| + 1 + i] == b[i];
    assert |x| == |y|;
    assert x == s[..|x|] && y == t[..|y|];
    assert a == s[|x| + 1..] && b == t[|y| + 1..];
  }

  lemma {:induction false} JoinAppend(a: seq<string>, b: seq<string>)
    requires a != [] && b != []
    ensures Join(a + b) == Join(a) + ("|" + Join(b))
  {
    if |a| == 1 {
      assert (a + b)[1..] == b;
    } else {
      assert (a + b)[1..] == a[1..] + b;
      JoinAppend(a[1..], b);
      assert a[0] + ("|" + (Join(a[1..]) + ("|" + Join(b)))) == (a[0] + ("|" + Join(a[1..]))) + ("|" + Join(b));
    }
  }

  // A joined list is read back if only its `j`th field may hold bars.
  lemma {:induction false} JoinIsRead(a: seq<string>, b: seq<string>, j: nat)
    requires |a| == |b| && j < |a| && Join(a) == Join(b)
    requires forall i :: 0 <= i < |a| && i != j ==> NoBar(a[i]) && NoBar(b[i])
    ensures a == b
    decreases |a|
  {
    var last := |a| - 1;
    if j > 0 {
      FirstFieldIsRead(a[0], Join(a[1..]), b[0], Join(b[1..]));
      JoinIsRead(a[1..], b[1..], j - 1);
      assert a == [a[0]] + a[1..] && b == [b[0]] + b[1..];
    } else if last > 0 {
      assert a == a[..last] + [a[last]] && b == b[..last] + [b[last]];
      JoinAppend(a[..last], [a[last]]);
      JoinAppend(b[..last], [b[last]]);
      LastFieldIsRead(Join(a[..last]), a[last], Join(b[..last]), b[last]);
      JoinIsRead(a[..last], b[..last], 0);
    } else {
      assert a == [a[0]] && b == [b[0]];
    }
  }

  // The same request, but for the name of no group.
  predicate Same(f: Fields, g: Fields) {
    f.(group := None) == g.(group := None) && GroupText(f.group) == GroupText(g.group)
  }

  lemma SameParts(f: Fields, g: Fields)
    ensures Parts(f) == Parts(g) <==> Same(f, g)
  {
    var a, b := Parts(f), Parts(g);
    VersionTextIsInjective(f.version, g.version);
    DaysTextIsInjective(f.baselineDays, g.baselineDays);
    if a == b {
      assert a[0] == b[0] && a[1] == b[1] && a[2] == b[2] && a[3] == b[3];
      assert a[4] == b[4] && a[5] == b[5] && a[6] == b[6] && a[7] == b[7];
    }
  }

  // ---------- where bars may stand ----------

  // The parts of a key that are free text.
  const TEXTS: set<nat> := {0, 2, 3, 5, 6, 7}

  // Bars stand only in these of them.
  predicate BarsOnlyIn(f: Fields, places: set<nat>) {
    forall i :: i in TEXTS && i !in places ==> NoBar(Parts(f)[i])
  }

  lemma OnePlaceIsRead(f: Fields, g: Fields, j: nat)
    requires j < 8 && KeyOf(f) == KeyOf(g)
    requires forall i :: i in TEXTS && i != j ==> NoBar(Parts(f)[i]) && NoBar(Parts(g)[i])
    ensures Same(f, g)
  {
    VersionTextIsInjective(f.version, g.version);
    VersionTextIsInjective(g.version, f.version);
    DaysTextIsInjective(f.baselineDays, g.baselineDays);
    DaysTextIsInjective(g.baselineDays, f.baselineDays);
    assert forall i :: 0 <= i < 8 ==> i in TEXTS || i == 1 || i == 4;
    JoinIsRead(Parts(f), Parts(g), j);
    SameParts(f, g);
  }

  // Two keys of bar-free fields are the same exactly when every field is, except that the group named `*`
  // shares its key with no group at all.
  lemma KeysCollideOnlyOnTheStar(f: Fields, g: Fields)
    requires Barless(f) && Barless(g)
    ensures KeyOf(f) == KeyOf(g) <==> Same(f, g)
  {
    SameParts(f, g);
    if KeyOf(f) == KeyOf(g) {
      OnePlaceIsRead(f, g, 0);
    }
  }

  // ---------- two places collide ----------

  function Put(f: Fields, i: nat, text: string): (g: Fields)
    requires i in TEXTS
    ensures Parts(g) == Parts(f)[i := text]
  {
    if i == 0 then f.(route := text)
    else if i == 2 then f.(catalog := text)
    else if i == 3 then f.(region := text)
    else if i == 5 then f.(realm := text)
    else if i == 6 then f.(locale := text)
    else f.(group := Some(text))
  }

  // What stands between two places of a joined list.
  function Between(mid: seq<string>): string { if mid == [] then "|" else "|" + Join(mid) + "|" }

  lemma JoinEnds(x: string, mid: seq<string>, y: string)
    ensures Join([x] + mid + [y]) == x + Between(mid) + y
  {
    assert ([x] + mid + [y])[1..] == mid + [y];
    if mid != [] {
      JoinAppend(mid, [y]);
    }
  }

  lemma {:induction false} JoinInside(pre: seq<string>, m: seq<string>, n: seq<string>, post: seq<string>)
    requires m != [] && n != [] && Join(m) == Join(n)
    ensures Join(pre + m + post) == Join(pre + n + post)
  {
    if pre == [] {
      assert pre + m + post == m + post && pre + n + post == n + post;
      if post == [] {
        assert m + post == m && n + post == n;
      } else {
        JoinAppend(m, post);
        JoinAppend(n, post);
      }
    } else {
      JoinInside(pre[1..], m, n, post);
      assert (pre + m + post)[1..] == pre[1..] + m + post && (pre + n + post)[1..] == pre[1..] + n + post;
    }
  }

  // Text moved from one place to the other leaves the joined list as it was.
  lemma MovedText(p: seq<string>, i: nat, j: nat)
    requires i < j < |p|
    ensures var text := Between(p[i + 1..j]);
            Join(p[i := ""][j := text]) == Join(p[i := text][j := ""])
  {
    var mid := p[i + 1..j];
    var text := Between(mid);
    var a, b := p[i := ""][j := text], p[i := text][j := ""];
    assert a == p[..i] + ([""] + mid + [text]) + p[j + 1..];
    assert b == p[..i] + ([text] + mid + [""]) + p[j + 1..];
    JoinEnds("", mid, text);
    JoinEnds(text, mid, "");
    assert "" + text + text == text + text + "";
    JoinInside(p[..i], [""] + mid + [text], [text] + mid + [""], p[j + 1..]);
  }

  const PLAIN := Fields("", None, "", "", 0, "", "", None)

  // With bars allowed in two places, two different requests share a key.
  lemma TwoPlacesCollide(places: set<nat>, i: nat, j: nat) returns (f: Fields, g: Fields)
    requires places <= TEXTS && i in places && j in places && i < j
    ensures BarsOnlyIn(f, places) && BarsOnlyIn(g, places) && KeyOf(f) == KeyOf(g) && !Same(f, g)
  {
    PlainIsPlain();
    hide Join, Parts, Put, NoBar, Same;
    var p := Parts(PLAIN);
    var text := Between(p[i + 1..j]);
    f := Put(Put(PLAIN, i, ""), j, text);
    g := Put(Put(PLAIN, i, text), j, "");
    MovedText(p, i, j);
    assert Parts(f)[i] == "" && Parts(g)[i] == text;
    SameParts(f, g);
  }

  lemma PlainIsPlain()
    ensures |Parts(PLAIN)| == 8 && forall k :: k in TEXTS ==> NoBar(Parts(PLAIN)[k])
  {
  }

  // ---------- main result ----------

  // With bars in these places only, a key says which request it is for.
  ghost predicate KeysDecide(places: set<nat>) {
    forall f, g :: BarsOnlyIn(f, places) && BarsOnlyIn(g, places) && KeyOf(f) == KeyOf(g) ==> Same(f, g)
  }

  // That is so if and only if there is at most one such place.
  lemma OnePlaceForBars(places: set<nat>)
    requires places <= TEXTS
    ensures KeysDecide(places) <==> |places| <= 1
  {
    if |places| <= 1 {
      var j := OnlyOne(places);
      forall f, g | BarsOnlyIn(f, places) && BarsOnlyIn(g, places) && KeyOf(f) == KeyOf(g)
        ensures Same(f, g)
      {
        OnePlaceIsRead(f, g, j);
      }
    } else {
      var i, j := TwoOf(places);
      var f, g := TwoPlacesCollide(places, i, j);
    }
  }

  lemma OnlyOne(places: set<nat>) returns (j: nat)
    requires places <= TEXTS && |places| <= 1
    ensures j < 8 && forall i :: i in places ==> i == j
  {
    if places == {} {
      return 0;
    }
    j :| j in places;
    assert |places - {j}| == 0;
    assert forall i :: i in places && i != j ==> i in places - {j};
  }

  lemma TwoOf(places: set<nat>) returns (i: nat, j: nat)
    requires |places| >= 2
    ensures i in places && j in places && i < j
  {
    var a :| a in places;
    assert |places - {a}| >= 1;
    var b :| b in places - {a};
    i, j := Min(a, b), Max(a, b);
  }
}
