/** Path-prefix routing of pkg/routes/routes.go and the redirect rewriting of pkg/tunnel/route_forward.go. */
module Routes {
  import opened Text

  datatype Route = Route(path: string, port: int)

  function StripSlashes(path: string): string {
    if |path| > 1 && path[|path| - 1] == '/' then StripSlashes(path[..|path| - 1]) else path
  }

  function Normalized(path: string): string {
    var trimmed := TrimSpace(path);
    if trimmed == "" then ""
    else StripSlashes(if HasPrefix(trimmed, "/") then trimmed else "/" + trimmed)
  }

  /** `NormalizePath`: trailing slashes go one at a time. */
  method NormalizePath(path: string) returns (p: string)
    ensures p == Normalized(path)
  {
    p := TrimSpace(path);
    if p == "" {
      return;
    }
    if !HasPrefix(p, "/") {
      p := "/" + p;
    }
    ghost var start := p;
    while |p| > 1 && HasSuffix(p, "/")
      invariant StripSlashes(p) == StripSlashes(start)
      decreases |p|
    {
      p := TrimSuffix(p, "/");
    }
  }

  predicate PrefixMatches(prefix: string, requestPath: string) {
    if prefix == "/" then HasPrefix(requestPath, "/")
    else requestPath == prefix || HasPrefix(requestPath, prefix + "/")
  }

  /** What one route must satisfy on its own. */
  predicate PlainRoute(route: Route) {
    var raw := TrimSpace(route.path);
    var normalized := Normalized(raw);
    raw != "" && HasPrefix(raw, "/")
    && !ContainsAny(normalized, "?# \t%") && !Contains(normalized, "..")
    && 1 <= route.port <= 65535
  }

  /** A plain route, character by character: its path is absolute, its normalized prefix has no query, fragment, space,
      tab, percent sign or two dots in a row, and its port is one of TCP. */
  lemma PlainRouteMeans(route: Route)
    ensures var raw := TrimSpace(route.path); var q := Normalized(raw);
      PlainRoute(route) <==>
        && raw != "" && raw[0] == '/' && 0 < route.port < 0x1_0000
        && (forall i | 0 <= i < |q| :: q[i] !in {'?', '#', ' ', '\t', '%'})
        && (forall i | 0 <= i < |q| - 1 :: !(q[i] == '.' && q[i + 1] == '.'))
  {
    var q := Normalized(TrimSpace(route.path));
    forall i | 0 <= i < |q| ensures q[i] in "?# \t%" <==> q[i] in {'?', '#', ' ', '\t', '%'} {
      assert "?# \t%" == ['?', '#', ' ', '\t', '%'];
    }
    forall i | 0 <= i < |q| - 1 ensures HasPrefix(q[i..], "..") <==> q[i] == '.' && q[i + 1] == '.' {
      assert q[i..][0] == q[i] && q[i..][1] == q[i + 1];
    }
    if Contains(q, "..") {
      var i :| 0 <= i <= |q| - 2 && HasPrefix(q[i..], "..");
      assert q[i] == '.' && q[i + 1] == '.';
    }
    if i :| 0 <= i < |q| - 1 && q[i] == '.' && q[i + 1] == '.' { assert HasPrefix(q[i..], ".."); }
  }

  function TablePrefix(route: Route): string {
    Normalized(TrimSpace(route.path))
  }

  /** The first k routes are plain and have different prefixes. */
  predicate ValidUpTo(table: seq<Route>, k: nat)
    requires k <= |table|
  {
    (forall i | 0 <= i < k :: PlainRoute(table[i]))
    && forall i, j | 0 <= i < j < k :: TablePrefix(table[i]) != TablePrefix(table[j])
  }

  predicate ValidTable(table: seq<Route>) {
    ValidUpTo(table, |table|)
  }

  predicate SeenBefore(table: seq<Route>, k: nat)
    requires k < |table|
  {
    exists i | 0 <= i < k :: TablePrefix(table[i]) == TablePrefix(table[k])
  }

  /** `Validate`: rejects malformed routes and duplicate prefixes in one pass. */
  method Validate(table: seq<Route>) returns (ok: bool)
    ensures ok == ValidTable(table)
  {
    var seen: set<string> := {};
    for k := 0 to |table|
      invariant ValidUpTo(table, k)
      invariant seen == set i | 0 <= i < k :: TablePrefix(table[i])
    {
      ValidNext(table, k);
      var plain := ValidateRoute(table[k]);
      if !plain {
        return false;
      }
      var normalized := NormalizePath(TrimSpace(table[k].path));
      if normalized in seen {
        return false;
      }
      seen := seen + {normalized};
    }
    return true;
  }

  lemma ValidNext(table: seq<Route>, k: nat)
    requires k < |table|
    ensures ValidUpTo(table, k + 1) <==> ValidUpTo(table, k) && PlainRoute(table[k]) && !SeenBefore(table, k)
    ensures ValidTable(table) ==> ValidUpTo(table, k + 1)
  {}

  method ValidateRoute(route: Route) returns (ok: bool)
    ensures ok == PlainRoute(route)
  {
    var raw := TrimSpace(route.path);
    if raw == "" || !HasPrefix(raw, "/") {
      return false;
    }
    var normalized := NormalizePath(raw);
    AnyOfMore(normalized, "?# \t", "%");
    if ContainsAny(normalized, "?# \t") {
      return false;
    }
    if ContainsAny(normalized, "%") || Contains(normalized, "..") {
      return false;
    }
    return 1 <= route.port <= 65535;
  }

  lemma AnyOfMore(s: string, a: string, b: string)
    ensures ContainsAny(s, a + b) == (ContainsAny(s, a) || ContainsAny(s, b))
  {}

  /** `MatchRoute`: the first route of greatest matching prefix length, its path normalized. */
  method MatchRoute(table: seq<Route>, requestPath: string) returns (m: Option<Route>)
    ensures m == Matched(table, requestPath)
  {
    var best := -1;
    var bestLen := -1;
    for i := 0 to |table|
      invariant -1 <= best < i && (best < 0 <==> bestLen < 0) && bestLen >= -1
      invariant best == BestIndex(table[..i], requestPath)
      invariant best >= 0 ==> bestLen == |Normalized(table[best].path)|
    {
      assert table[..i + 1][..i] == table[..i];
      var prefix := NormalizePath(table[i].path);
      if prefix == "" {
        continue;
      }
      if !PrefixMatches(prefix, requestPath) {
        continue;
      }
      if |prefix| > bestLen {
        best := i;
        bestLen := |prefix|;
      }
    }
    assert table[..|table|] == table;
    if best < 0 {
      return None;
    }
    var path := NormalizePath(table[best].path);
    return Some(table[best].(path := path));
  }

  predicate Applies(route: Route, requestPath: string) {
    Normalized(route.path) != "" && PrefixMatches(Normalized(route.path), requestPath)
  }

  function BestIndex(table: seq<Route>, requestPath: string): (best: int)
    ensures -1 <= best < |table|
    ensures best >= 0 ==> Applies(table[best], requestPath)
    ensures forall i | 0 <= i < |table| && Applies(table[i], requestPath) ::
      best >= 0 && |Normalized(table[i].path)| <= |Normalized(table[best].path)|
  {
    if table == [] then -1
    else
      var k := |table| - 1;
      assert forall i | 0 <= i < k :: table[..k][i] == table[i];
      var best := BestIndex(table[..k], requestPath);
      if Applies(table[k], requestPath)
         && (best < 0 || |Normalized(table[k].path)| > |Normalized(table[best].path)|)
      then k else best
  }

  function Matched(table: seq<Route>, requestPath: string): Option<Route> {
    var best := BestIndex(table, requestPath);
    if best < 0 then None else Some(table[best].(path := Normalized(table[best].path)))
  }

  /** Among prefixes of the same length the first wins. */
  lemma {:induction false} FirstOfLongest(table: seq<Route>, requestPath: string)
    ensures var best := BestIndex(table, requestPath);
      forall i | 0 <= i < best && Applies(table[i], requestPath) ::
        |Normalized(table[i].path)| < |Normalized(table[best].path)|
    decreases |table|
  {
    if table != [] {
      FirstOfLongest(table[..|table| - 1], requestPath);
      assert forall i | 0 <= i < |table| - 1 :: table[..|table| - 1][i] == table[i];
    }
  }

  // ---- prefix matching is list prefix on path segments ----

  /** The segments of a normalized prefix; the root prefix has only the empty segment before the slash. */
  function Segments(prefix: string): seq<string> {
    if prefix == "/" then [""] else Split(prefix, '/')
  }

  /** The first part of a split and what is left of the string behind it. */
  lemma {:induction false} SplitHead(s: string, c: char)
    ensures var parts := Split(s, c); var head := parts[0];
      && c !in head
      && (if |parts| == 1 then s == head
          else |head| < |s| && s == head + ([c] + s[|head| + 1..]) && parts[1..] == Split(s[|head| + 1..], c))
    decreases |s|
  {
    if s != "" && s[0] != c {
      SplitHead(s[1..], c);
      SplitStep(s, c);
      var parts := Split(s[1..], c);
      assert PrependTo(s[0], parts)[0] == [s[0]] + parts[0] && PrependTo(s[0], parts)[1..] == parts[1..];
      if |parts| > 1 { PrependHead(s, parts[0], s[1..][|parts[0]| + 1..], c); }
    }
  }

  lemma PrependHead(s: string, head: string, rest: string, c: char)
    requires s != "" && s[1..] == head + ([c] + rest)
    ensures s == ([s[0]] + head) + ([c] + rest) && s[|[s[0]] + head| + 1..] == rest
  {
    assert s == [s[0]] + s[1..];
  }

  lemma {:induction false} SplitOfPrefix(prefix: string, path: string)
    requires Split(prefix, '/') <= Split(path, '/')
    ensures path == prefix || HasPrefix(path, prefix + "/")
    decreases |prefix|
  {
    var p, q := Split(prefix, '/'), Split(path, '/');
    SplitHead(prefix, '/');
    SplitHead(path, '/');
    assert p[0] == q[0];
    var n := |p[0]| + 1;
    if |p| > 1 {
      assert p[1..] <= q[1..];
      SplitOfPrefix(prefix[n..], path[n..]);
    }
  }

  /** A prefix applies to a request path exactly when the path is absolute and the prefix's segments are
      the first segments of the path, so "/api" never captures "/apiserver". */
  lemma MatchesBySegments(prefix: string, path: string)
    requires HasPrefix(prefix, "/")
    ensures PrefixMatches(prefix, path) <==> HasPrefix(path, "/") && Segments(prefix) <= Split(path, '/')
  {
    if PrefixMatches(prefix, path) {
      if prefix == "/" {
        SplitConcat(path, "", path[1..], '/');
      } else if path != prefix {
        var rest := path[|prefix| + 1..];
        assert path == prefix + (['/'] + rest);
        SplitConcat(path, prefix, rest, '/');
      }
    }
    if HasPrefix(path, "/") && Segments(prefix) <= Split(path, '/') && prefix != "/" {
      SplitOfPrefix(prefix, path);
    }
  }

  // ---- dispatch ----

  lemma {:induction false} TrimmedEnds(s: string)
    ensures TrimRight(s) <= s
    ensures TrimRight(s) != "" ==> !IsSpace(TrimRight(s)[|TrimRight(s)| - 1])
    decreases |s|
  {
    if s != [] && IsSpace(s[|s| - 1]) { TrimmedEnds(s[..|s| - 1]); }
  }

  lemma {:induction false} TrimmedStart(s: string)
    ensures TrimLeft(s) != "" ==> !IsSpace(TrimLeft(s)[0])
    decreases |s|
  {
    if s != [] && IsSpace(s[0]) { TrimmedStart(s[1..]); }
  }

  lemma TrimSpaceIdempotent(s: string)
    ensures TrimSpace(TrimSpace(s)) == TrimSpace(s)
  {
    TrimmedEnds(TrimLeft(s));
    TrimmedStart(s);
  }

  lemma {:induction false} StrippedShape(path: string)
    requires HasPrefix(path, "/")
    ensures HasPrefix(StripSlashes(path), "/") && StripSlashes(path) <= path
    ensures StripSlashes(path) == "/" || StripSlashes(path)[|StripSlashes(path)| - 1] != '/'
    decreases |path|
  {
    if |path| > 1 && path[|path| - 1] == '/' { StrippedShape(path[..|path| - 1]); }
  }

  /** A normalized path is empty, or absolute with no trailing slash. */
  lemma NormalizedShape(path: string)
    ensures var p := Normalized(path);
      if TrimSpace(path) == "" then p == "" else HasPrefix(p, "/") && (p == "/" || p[|p| - 1] != '/')
    ensures Normalized(TrimSpace(path)) == Normalized(path)
  {
    TrimSpaceIdempotent(path);
    var trimmed := TrimSpace(path);
    if trimmed != "" {
      StrippedShape(if HasPrefix(trimmed, "/") then trimmed else "/" + trimmed);
    }
  }

  /** Two different prefixes matching the same path have different lengths. */
  lemma MatchingPrefixesNest(p: string, q: string, path: string)
    requires PrefixMatches(p, path) && PrefixMatches(q, path) && |p| == |q|
    ensures p == q
  {
    assert p == path[..|p|] && q == path[..|q|];
  }

  /** Route i applies, and every other route that applies has strictly fewer segments. */
  ghost predicate LongestBySegments(table: seq<Route>, path: string, i: int) {
    && 0 <= i < |table| && Applies(table[i], path)
    && forall j | 0 <= j < |table| && j != i && Applies(table[j], path) ::
         |Segments(Normalized(table[j].path))| < |Segments(Normalized(table[i].path))|
  }

  lemma BeatsOthers(table: seq<Route>, path: string, i: nat, j: nat)
    requires ValidTable(table) && i < |table| && j < |table| && i != j
    requires Applies(table[i], path) && Applies(table[j], path)
    requires |Normalized(table[j].path)| <= |Normalized(table[i].path)|
    ensures |Segments(Normalized(table[j].path))| < |Segments(Normalized(table[i].path))|
  {
    var p, q := Normalized(table[j].path), Normalized(table[i].path);
    NormalizedShape(table[i].path);
    NormalizedShape(table[j].path);
    if |p| == |q| { MatchingPrefixesNest(p, q, path); }
    LongerHasMoreSegments(p, q, path);
  }

  /** On a validated table the match is the one route whose segments are the longest prefix of the path's,
      wherever it stands in the table; without a match no route applies. */
  lemma MatchIsUniqueLongest(table: seq<Route>, path: string)
    requires ValidTable(table)
    ensures Matched(table, path).None? <==> forall i | 0 <= i < |table| :: !Applies(table[i], path)
    ensures forall i :: LongestBySegments(table, path, i) <==>
      Matched(table, path).Some? && i == BestIndex(table, path)
  {
    var best := BestIndex(table, path);
    if best >= 0 {
      forall j | 0 <= j < |table| && j != best && Applies(table[j], path)
        ensures |Segments(Normalized(table[j].path))| < |Segments(Normalized(table[best].path))|
      {
        BeatsOthers(table, path, best, j);
      }
    }
  }

  lemma LongerHasMoreSegments(p: string, q: string, path: string)
    requires PrefixMatches(p, path) && PrefixMatches(q, path) && |p| < |q|
    requires HasPrefix(p, "/") && HasPrefix(q, "/")
    requires q[|q| - 1] != '/'
    ensures |Segments(p)| < |Segments(q)|
  {
    MatchesBySegments(p, path);
    MatchesBySegments(q, path);
    if |Segments(q)| <= |Segments(p)| {
      assert Segments(q) <= Segments(p);
      if p == "/" {
        SplitHead(q, '/');
      } else {
        SplitOfPrefix(q, p);
      }
      assert false;
    }
  }

  // ---- semantic equality of tables ----

  function EqualKey(route: Route): string {
    Normalized(route.path) + "=" + DecimalInt(route.port)
  }

  function EqualKeys(table: seq<Route>): (keys: seq<string>)
    ensures |keys| == |table| && forall i | 0 <= i < |keys| :: keys[i] == EqualKey(table[i])
  {
    seq(|table|, i requires 0 <= i < |table| => EqualKey(table[i]))
  }

  function CountOf(counts: map<string, int>, key: string): int {
    if key in counts then counts[key] else 0
  }

  /** `Equal`: counts the keys of one table and pays them off with the keys of the other. */
  method Equal(a: seq<Route>, b: seq<Route>) returns (same: bool)
    ensures same <==> multiset(EqualKeys(a)) == multiset(EqualKeys(b))
  {
    ghost var ka := EqualKeys(a);
    if |a| != |b| {
      assert |multiset(ka)| != |multiset(EqualKeys(b))|;
      return false;
    }
    var counts := CountKeys(a);
    same := PayOff(counts, ka, b);
  }

  method CountKeys(a: seq<Route>) returns (counts: map<string, int>)
    ensures Owes(counts, EqualKeys(a), [])
  {
    ghost var ka := EqualKeys(a);
    counts := map[];
    for i := 0 to |a|
      invariant Owes(counts, ka[..i], [])
    {
      AddKey(counts, ka, i);
      counts := counts[EqualKey(a[i]) := CountOf(counts, EqualKey(a[i])) + 1];
    }
    assert ka[..|a|] == ka;
  }

  method PayOff(owed: map<string, int>, ghost ka: seq<string>, b: seq<Route>) returns (same: bool)
    requires Owes(owed, ka, []) && |ka| == |b|
    ensures same <==> multiset(ka) == multiset(EqualKeys(b))
  {
    ghost var kb := EqualKeys(b);
    var counts := owed;
    for j := 0 to |b|
      invariant Owes(counts, ka, kb[..j])
      invariant multiset(kb[..j]) <= multiset(ka)
    {
      var paid;
      counts, paid := PayOne(counts, EqualKey(b[j]), ka, kb, j);
      if !paid {
        return false;
      }
    }
    AllPaid(ka, kb);
    return true;
  }

  /** One key is paid off, or was not owed. */
  method PayOne(counts: map<string, int>, key: string, ghost ka: seq<string>, ghost kb: seq<string>, ghost j: nat)
    returns (next: map<string, int>, paid: bool)
    requires j < |kb| && key == kb[j] && Owes(counts, ka, kb[..j]) && multiset(kb[..j]) <= multiset(ka)
    ensures paid ==> Owes(next, ka, kb[..j + 1]) && multiset(kb[..j + 1]) <= multiset(ka)
    ensures !paid ==> multiset(ka) != multiset(kb)
  {
    PayKey(counts, ka, kb, j);
    next := counts[key := CountOf(counts, key) - 1];
    paid := next[key] >= 0;
  }

  lemma AllPaid(ka: seq<string>, kb: seq<string>)
    requires |ka| == |kb| && multiset(kb[..|kb|]) <= multiset(ka)
    ensures multiset(ka) == multiset(kb)
  {
    assert kb[..|kb|] == kb;
    SameSize(multiset(kb), multiset(ka));
  }

  /** The counters hold the keys added less the keys paid off. */
  ghost predicate Owes(counts: map<string, int>, added: seq<string>, paid: seq<string>) {
    forall k: string :: CountOf(counts, k) + multiset(paid)[k] == multiset(added)[k]
  }

  lemma AddKey(counts: map<string, int>, keys: seq<string>, i: nat)
    requires i < |keys| && Owes(counts, keys[..i], [])
    ensures Owes(counts[keys[i] := CountOf(counts, keys[i]) + 1], keys[..i + 1], [])
  {
    TakeStep(keys, i);
  }

  lemma PayKey(counts: map<string, int>, added: seq<string>, keys: seq<string>, j: nat)
    requires j < |keys| && Owes(counts, added, keys[..j]) && multiset(keys[..j]) <= multiset(added)
    ensures Owes(counts[keys[j] := CountOf(counts, keys[j]) - 1], added, keys[..j + 1])
    ensures if CountOf(counts, keys[j]) > 0 then multiset(keys[..j + 1]) <= multiset(added)
            else multiset(keys) != multiset(added)
  {
    TakeStep(keys, j);
    PrefixIsPart(keys, j + 1);
    assert multiset(keys[..j + 1])[keys[j]] <= multiset(keys)[keys[j]];
  }

  lemma TakeStep<T>(s: seq<T>, i: nat)
    requires i < |s|
    ensures s[..i + 1] == s[..i] + [s[i]]
  {}

  lemma PrefixIsPart<T>(s: seq<T>, i: nat)
    requires i <= |s|
    ensures multiset(s[..i]) <= multiset(s)
  {
    assert s == s[..i] + s[i..];
  }

  lemma SameSize(a: multiset<string>, b: multiset<string>)
    requires a <= b && |a| == |b|
    ensures a == b
  {
    assert b == a + (b - a);
    assert |b - a| == 0;
  }

  /** The `path=port` key loses nothing, although a path may itself contain '='. */
  lemma EqualKeyInjective(r: Route, s: Route)
    requires EqualKey(r) == EqualKey(s)
    ensures Normalized(r.path) == Normalized(s.path) && r.port == s.port
  {
    CutLast(Normalized(r.path), DecimalInt(r.port), Normalized(s.path), DecimalInt(s.port), '=');
    DecimalIntInjective(r.port, s.port);
  }

  lemma KeyInOther(a: seq<Route>, b: seq<Route>, i: nat) returns (j: nat)
    requires multiset(EqualKeys(a)) == multiset(EqualKeys(b)) && i < |a|
    ensures j < |b| && Normalized(b[j].path) == Normalized(a[i].path) && b[j].port == a[i].port
  {
    assert EqualKeys(a)[i] in multiset(EqualKeys(b));
    j :| 0 <= j < |b| && EqualKeys(b)[j] == EqualKeys(a)[i];
    EqualKeyInjective(b[j], a[i]);
  }

  lemma ValidDistinct(table: seq<Route>)
    requires ValidTable(table)
    ensures forall i, j | 0 <= i < |table| && 0 <= j < |table|
      && Normalized(table[i].path) == Normalized(table[j].path) :: i == j
  {
    forall i | 0 <= i < |table| ensures TablePrefix(table[i]) == Normalized(table[i].path) {
      NormalizedShape(table[i].path);
    }
  }

  /** Equal tables dispatch every request path to the same prefix and port. */
  lemma EqualDispatch(a: seq<Route>, b: seq<Route>, path: string)
    requires ValidTable(a) && multiset(EqualKeys(a)) == multiset(EqualKeys(b))
    ensures Matched(a, path) == Matched(b, path)
  {
    ValidDistinct(a);
    var i, j := BestIndex(a, path), BestIndex(b, path);
    if i >= 0 {
      var j' := KeyInOther(a, b, i);
      assert Applies(b[j'], path);
    }
    if j >= 0 {
      var i' := KeyInOther(b, a, j);
      assert Applies(a[i'], path);
      MatchingPrefixesNest(Normalized(a[i].path), Normalized(b[j].path), path);
      assert i' == i;
    }
  }

  /** A route's own prefix is dispatched to that route. */
  lemma OwnPrefixWins(table: seq<Route>, i: nat)
    requires ValidTable(table) && i < |table|
    ensures Matched(table, Normalized(table[i].path)) == Some(Route(Normalized(table[i].path), table[i].port))
  {
    var p := Normalized(table[i].path);
    NormalizedShape(table[i].path);
    assert PlainRoute(table[i]);
    assert Applies(table[i], p);
    var best := BestIndex(table, p);
    MatchingPrefixesNest(Normalized(table[best].path), p, p);
    ValidDistinct(table);
  }

  lemma {:induction false} DistinctMultiplicity(s: seq<string>, x: string)
    requires forall i, j | 0 <= i < j < |s| :: s[i] != s[j]
    ensures multiset(s)[x] == if x in s then 1 else 0
    decreases |s|
  {
    if s != [] {
      DistinctMultiplicity(s[1..], x);
      assert s == [s[0]] + s[1..];
    }
  }

  lemma KeysDistinct(table: seq<Route>)
    requires ValidTable(table)
    ensures forall i, j | 0 <= i < j < |table| :: EqualKeys(table)[i] != EqualKeys(table)[j]
  {
    ValidDistinct(table);
    forall i, j | 0 <= i < j < |table| ensures EqualKeys(table)[i] != EqualKeys(table)[j] {
      if EqualKeys(table)[i] == EqualKeys(table)[j] { EqualKeyInjective(table[i], table[j]); }
    }
  }

  /** On validated tables `Equal` decides exactly whether two tables route every path alike. */
  lemma EqualIffSameDispatch(a: seq<Route>, b: seq<Route>)
    requires ValidTable(a) && ValidTable(b)
    ensures multiset(EqualKeys(a)) == multiset(EqualKeys(b))
            <==> forall path: string :: Matched(a, path) == Matched(b, path)
  {
    if multiset(EqualKeys(a)) == multiset(EqualKeys(b)) {
      forall path: string ensures Matched(a, path) == Matched(b, path) { EqualDispatch(a, b, path); }
    }
    if forall path: string :: Matched(a, path) == Matched(b, path) {
      KeysDistinct(a);
      KeysDistinct(b);
      forall k: string ensures multiset(EqualKeys(a))[k] == multiset(EqualKeys(b))[k] {
        DistinctMultiplicity(EqualKeys(a), k);
        DistinctMultiplicity(EqualKeys(b), k);
        KeyCarriesOver(a, b, k);
        KeyCarriesOver(b, a, k);
      }
    }
  }

  lemma KeyCarriesOver(a: seq<Route>, b: seq<Route>, key: string)
    requires ValidTable(a) && ValidTable(b)
    requires forall path: string :: Matched(a, path) == Matched(b, path)
    ensures key in EqualKeys(a) ==> key in EqualKeys(b)
  {
    if key in EqualKeys(a) {
      var i :| 0 <= i < |a| && EqualKeys(a)[i] == key;
      var p := Normalized(a[i].path);
      OwnPrefixWins(a, i);
      assert Matched(b, p) == Matched(a, p);
      assert EqualKeys(b)[BestIndex(b, p)] == key;
    }
  }

  // ---- labels ----

  function LabelPart(route: Route): string {
    Normalized(route.path) + "->" + DecimalInt(route.port)
  }

  /** `Label`. */
  function Label(table: seq<Route>): string {
    Join(seq(|table|, i requires 0 <= i < |table| => LabelPart(table[i])), ", ")
  }

  lemma ArrowCut(a: string, m: string, b: string, n: string)
    requires '>' !in m && '>' !in n && a + "->" + m == b + "->" + n
    ensures a == b && m == n
  {
    assert a + "->" + m == (a + "-") + ['>'] + m && b + "->" + n == (b + "-") + ['>'] + n;
    CutLast(a + "-", m, b + "-", n, '>');
    assert (a + "-")[..|a|] == a && (b + "-")[..|b|] == b;
  }

  lemma LabelPartInjective(r: Route, s: Route)
    requires LabelPart(r) == LabelPart(s)
    ensures Normalized(r.path) == Normalized(s.path) && r.port == s.port
  {
    ArrowCut(Normalized(r.path), DecimalInt(r.port), Normalized(s.path), DecimalInt(s.port));
    DecimalIntInjective(r.port, s.port);
  }

  /** Joining with ", " loses nothing when no part contains a space. */
  lemma {:induction false} CommaJoinInjective(p: seq<string>, q: seq<string>)
    requires FreeOf(p, ' ') && FreeOf(q, ' ')
    requires forall i | 0 <= i < |p| :: p[i] != ""
    requires forall i | 0 <= i < |q| :: q[i] != ""
    requires Join(p, ", ") == Join(q, ", ")
    ensures p == q
    decreases |p|
  {
    if |p| >= 2 && |q| >= 2 {
      var u, v := Join(p[1..], ", "), Join(q[1..], ", ");
      assert Join(p, ", ") == (p[0] + ",") + [' '] + u && Join(q, ", ") == (q[0] + ",") + [' '] + v;
      CutFirst(p[0] + ",", u, q[0] + ",", v, ' ');
      assert (p[0] + ",")[..|p[0]|] == p[0] && (q[0] + ",")[..|q[0]|] == q[0];
      CommaJoinInjective(p[1..], q[1..]);
      assert p == [p[0]] + p[1..] && q == [q[0]] + q[1..];
    }
  }

  lemma ValidPartIsPlain(route: Route)
    requires PlainRoute(route)
    ensures LabelPart(route) != "" && ' ' !in LabelPart(route)
  {
    NormalizedShape(route.path);
    var n := Normalized(route.path);
    assert forall i | 0 <= i < |n| :: n[i] != ' ';
  }

  /** Tables with equal labels agree, route by route, on normalized prefix and port. */
  lemma LabelInjective(a: seq<Route>, b: seq<Route>)
    requires ValidTable(a) && ValidTable(b) && Label(a) == Label(b)
    ensures |a| == |b|
    ensures forall i | 0 <= i < |a| :: Normalized(a[i].path) == Normalized(b[i].path) && a[i].port == b[i].port
  {
    var p := seq(|a|, i requires 0 <= i < |a| => LabelPart(a[i]));
    var q := seq(|b|, i requires 0 <= i < |b| => LabelPart(b[i]));
    forall i | 0 <= i < |a| ensures p[i] != "" && ' ' !in p[i] { ValidPartIsPlain(a[i]); }
    forall i | 0 <= i < |b| ensures q[i] != "" && ' ' !in q[i] { ValidPartIsPlain(b[i]); }
    CommaJoinInjective(p, q);
    forall i | 0 <= i < |a| ensures Normalized(a[i].path) == Normalized(b[i].path) && a[i].port == b[i].port {
      assert p[i] == q[i];
      LabelPartInjective(a[i], b[i]);
    }
  }

  /** The label depends on normalized prefixes and ports only. */
  lemma LabelDetermined(a: seq<Route>, b: seq<Route>)
    requires |a| == |b|
    requires forall i | 0 <= i < |a| :: Normalized(a[i].path) == Normalized(b[i].path) && a[i].port == b[i].port
    ensures Label(a) == Label(b)
  {
    assert seq(|a|, i requires 0 <= i < |a| => LabelPart(a[i])) == seq(|b|, i requires 0 <= i < |b| => LabelPart(b[i]));
  }

  // ---- stripping the matched prefix ----

  /** `StripPrefix`. */
  function StripPrefix(prefix: string, requestPath: string): string {
    var p := Normalized(prefix);
    if p == "/" || p == "" then requestPath
    else
      var rest := if HasPrefix(requestPath, p) then requestPath[|p|..] else requestPath;
      if rest == "" then "/" else rest
  }

  /** The root prefix strips nothing. */
  lemma RootStripsNothing(prefix: string, requestPath: string)
    requires Normalized(prefix) == "/" || Normalized(prefix) == ""
    ensures StripPrefix(prefix, requestPath) == requestPath
  {}

  lemma NoTrim(s: string)
    requires s != "" && !IsSpace(s[0])
    ensures (TrimSpace(s) == s) <==> !IsSpace(s[|s| - 1])
  {
    TrimmedEnds(s);
    if IsSpace(s[|s| - 1]) {
      TrimmedEnds(s[..|s| - 1]);
      assert |TrimSpace(s)| < |s|;
    }
  }

  /** Normalizing a normalized prefix changes nothing exactly when it does not end in white space. */
  lemma NormalizedTwice(path: string)
    requires Normalized(path) != ""
    ensures var p := Normalized(path);
      && (Normalized(p) == p <==> !IsSpace(p[|p| - 1]))
      && |Normalized(p)| <= |p| && Normalized(p) <= p
  {
    var p := Normalized(path);
    NormalizedShape(path);
    NoTrim(p);
    TrimmedEnds(p);
    var t := TrimSpace(p);
    assert t == TrimRight(p) && HasPrefix(t, "/") by { KeepsSlash(p); }
    StrippedShape(t);
    if !IsSpace(p[|p| - 1]) && |p| > 1 {
      assert StripSlashes(p) == p;
    }
  }

  lemma {:induction false} KeepsSlash(s: string)
    requires HasPrefix(s, "/")
    ensures HasPrefix(TrimRight(s), "/")
    decreases |s|
  {
    if IsSpace(s[|s| - 1]) { KeepsSlash(s[..|s| - 1]); }
  }

  /** What the local service sees is the request path without the matched prefix: putting the prefix back
      gives the path, for every matched path, exactly when the matched prefix does not end in white space
      (`Validate` rejects only space and tab, so a prefix ending in a line feed passes it). */
  lemma StripRoundTrip(route: Route)
    requires Normalized(route.path) != "" && Normalized(route.path) != "/"
    ensures var q := Normalized(route.path);
      !IsSpace(q[|q| - 1]) <==>
        forall p: string | PrefixMatches(q, p) && p != q ::
          q + StripPrefix(q, p) == p && HasPrefix(StripPrefix(q, p), "/")
    ensures var q := Normalized(route.path); !IsSpace(q[|q| - 1]) ==> StripPrefix(q, q) == "/"
  {
    var q := Normalized(route.path);
    NormalizedTwice(route.path);
    var n := Normalized(q);
    if IsSpace(q[|q| - 1]) {
      var p := q + "/x";
      assert PrefixMatches(q, p) && p != q;
      assert |q + StripPrefix(q, p)| > |p|;
    }
  }

  lemma LineFeedPath()
    ensures Normalized("/a\n/") == "/a\n" && Normalized("/a\n") == "/a" && TrimSpace("/a\n/") == "/a\n/"
  {
    assert "/a\n/"[..3] == "/a\n" && "/a\n"[..2] == "/a";
    assert TrimSpace("/a\n/") == "/a\n/" && TrimSpace("/a\n") == "/a";
  }

  /** A validated table whose only route is not stripped as its prefix says. */
  lemma LineFeedRoute()
    ensures var table := [Route("/a\n/", 8080)];
      ValidTable(table) && Matched(table, "/a\n/x") == Some(Route("/a\n", 8080))
      && StripPrefix("/a\n", "/a\n/x") == "\n/x"
  {
    LineFeedPath();
    var route := Route("/a\n/", 8080);
    assert PlainRoute(route);
    assert [route][..0] == [] && Applies(route, "/a\n/x");
    assert "/a\n/x"[2..] == "\n/x";
  }

  // ---- redirects ----

  /** `rewriteRedirectLocation` on the Location header; "" means the header is absent. */
  method RewriteRedirectLocation(location: string, prefix: string) returns (l: string)
    ensures l == Rewritten(location, prefix)
  {
    l := location;
    if prefix == "" || prefix == "/" {
      return;
    }
    if !HasPrefix(location, "/") || HasPrefix(location, "//") {
      return;
    }
    if location == prefix || HasPrefix(location, prefix + "/") {
      return;
    }
    l := prefix + location;
  }

  function Rewritten(location: string, prefix: string): string {
    if prefix != "" && prefix != "/" && HasPrefix(location, "/") && !HasPrefix(location, "//")
       && location != prefix && !HasPrefix(location, prefix + "/")
    then prefix + location
    else location
  }

  /** Every absolute path ends up under the prefix, and is left alone exactly when it already is. */
  lemma RewrittenUnderPrefix(location: string, prefix: string)
    requires HasPrefix(prefix, "/") && prefix != "/" && HasPrefix(location, "/") && !HasPrefix(location, "//")
    ensures PrefixMatches(prefix, Rewritten(location, prefix))
    ensures Rewritten(location, prefix) == location <==> PrefixMatches(prefix, location)
    ensures Rewritten(location, prefix) != location ==> Rewritten(location, prefix) == prefix + location
  {
    if Rewritten(location, prefix) != location { assert prefix + location == (prefix + "/") + location[1..]; }
  }

  /** Rewriting twice is rewriting once; network-path references (section 4.2 of RFC 3986), relative
      references and absolute URLs are left alone. */
  lemma RewriteIdempotent(location: string, prefix: string)
    ensures Rewritten(Rewritten(location, prefix), prefix) == Rewritten(location, prefix)
    ensures HasPrefix(location, "//") || !HasPrefix(location, "/") ==> Rewritten(location, prefix) == location
  {
    var l := Rewritten(location, prefix);
    if l != location {
      assert l == (prefix + "/") + location[1..];
    }
  }

  /** A rewritten location is under the route prefix again, and stripping the prefix gives the location the local
      service answered with exactly when the prefix does not end in white space. */
  lemma RewriteRoundTrip(location: string, route: Route)
    requires Normalized(route.path) != "" && Normalized(route.path) != "/"
    requires Rewritten(location, Normalized(route.path)) != location
    ensures PrefixMatches(Normalized(route.path), Rewritten(location, Normalized(route.path)))
    ensures var q := Normalized(route.path);
      StripPrefix(q, Rewritten(location, q)) == location <==> !IsSpace(q[|q| - 1])
  {
    var q := Normalized(route.path);
    NormalizedTwice(route.path);
    NormalizedShape(route.path);
    NormalizedShape(q);
    var l := Rewritten(location, q);
    assert l == (q + "/") + location[1..];
    assert l[|q|..] == location;
    if IsSpace(q[|q| - 1]) {
      var p := Normalized(q);
      assert p <= q && |p| < |q|;
      assert p <= l && |l[|p|..]| > |location|;
      assert |StripPrefix(q, l)| > |location|;
    }
  }

  /** The route's prefix goes on from the answering one with a prefix of the location itself. */
  predicate Claims(q: string, route: Route, location: string) {
    HasPrefix(Normalized(route.path), q + "/") && PrefixMatches(Normalized(route.path)[|q|..], location)
  }

  lemma ClaimsIsLongerMatch(q: string, route: Route, location: string)
    requires q != "" && q != "/" && Rewritten(location, q) != location
    ensures Claims(q, route, location) <==>
      Applies(route, Rewritten(location, q)) && |Normalized(route.path)| > |q|
  {
    var p, l := Normalized(route.path), Rewritten(location, q);
    NormalizedShape(route.path);
    assert l == (q + "/") + location[1..] && l[|q|..] == location;
    if Claims(q, route, location) {
      assert p == q + p[|q|..];
      assert p[|q|..] + "/" <= location ==> p + "/" <= l;
    }
    if Applies(route, l) && |p| > |q| {
      assert p <= l && q + "/" <= l && q + "/" <= p;
      assert p + "/" <= l ==> (p + "/")[|q|..] == p[|q|..] + "/" && p[|q|..] + "/" <= location;
    }
  }

  /** The browser's next request for a rewritten location comes back to the route that answered exactly when no other
      route claims the location under that route's prefix. */
  lemma RewriteComesBack(table: seq<Route>, i: nat, location: string)
    requires ValidTable(table) && i < |table| && Normalized(table[i].path) != "/"
    requires Rewritten(location, Normalized(table[i].path)) != location
    ensures var q := Normalized(table[i].path);
      Matched(table, Rewritten(location, q)) == Some(Route(q, table[i].port)) <==>
        forall j | 0 <= j < |table| :: !Claims(q, table[j], location)
  {
    var q := Normalized(table[i].path);
    var l := Rewritten(location, q);
    assert PlainRoute(table[i]);
    NormalizedShape(table[i].path);
    forall j | 0 <= j < |table|
      ensures Claims(q, table[j], location) <==> Applies(table[j], l) && |Normalized(table[j].path)| > |q|
    {
      ClaimsIsLongerMatch(q, table[j], location);
    }
    assert l == (q + "/") + location[1..];
    assert Applies(table[i], l);
    var best := BestIndex(table, l);
    if |Normalized(table[best].path)| == |q| {
      MatchingPrefixesNest(Normalized(table[best].path), q, l);
      ValidDistinct(table);
    }
  }

  predicate Ordinary(path: string) {
    |path| > 1 && path[0] == '/' && path[|path| - 1] != '/' && forall c | c in path :: c == '/' || 'a' <= c <= 'z'
  }

  lemma OrdinaryRoute(path: string, port: int)
    requires Ordinary(path) && 1 <= port <= 65535
    ensures TrimSpace(path) == path && Normalized(path) == path && PlainRoute(Route(path, port))
  {
    assert path[0] in path && path[|path| - 1] in path;
    NoTrim(path);
    forall i | 0 <= i <= |path| - 2 ensures !HasPrefix(path[i..], "..") {
      assert path[i..][0] == path[i] && path[i] in path;
    }
    forall i | 0 <= i < |path| ensures path[i] !in "?# \t%" { assert path[i] in path; }
  }

  /** A redirect of one route to a path of its own ends up at the route that has both for a prefix. */
  lemma RedirectTakenByLonger(q: string, location: string, a: int, b: int)
    requires Ordinary(q) && Ordinary(location) && 1 <= a <= 65535 && 1 <= b <= 65535
    requires Rewritten(location, q) == q + location
    ensures var table := [Route(q, a), Route(q + location, b)];
      ValidTable(table) && Matched(table, Rewritten(location, q)) == Some(Route(q + location, b))
  {
    var l := q + location;
    var table := [Route(q, a), Route(l, b)];
    assert l[0] == q[0] && l[|l| - 1] == location[|location| - 1];
    OrdinaryRoute(q, a);
    OrdinaryRoute(l, b);
    assert |q| != |l| && Applies(table[1], l);
    assert BestIndex(table, l) == 1;
  }

  /** With routes `/a` and `/a/login`, a redirect of the first to its own `/login` reaches the second. */
  lemma RedirectTaken()
    ensures var table := [Route("/a", 8080), Route("/a/login", 9090)];
      && ValidTable(table) && Rewritten("/login", "/a") == "/a/login"
      && Matched(table, "/a/login") == Some(Route("/a/login", 9090))
  {
    assert "/login"[1] != "/a/"[1] && "/login"[1] != "//"[1] && "/a" + "/login" == "/a/login";
    RedirectTakenByLonger("/a", "/login", 8080, 9090);
  }
}
