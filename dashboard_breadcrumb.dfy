/** The breadcrumb trail above the dashboard pages: Home, Dashboard, and the
    section the current path belongs to.  Only labels and link targets are
    modelled; the icons (the only thing the user role affects) are not. */
module DashboardBreadcrumb {
  import opened Text
  import opened Sorting
  import opened Wrappers
  import opened JsObject

  /** One breadcrumb link. */
  datatype Crumb = Crumb(caption: string, href: string)

  predicate NonEmpty(s: string) { s != "" }

  /** `pathname.split('/').filter(Boolean)`. */
  function Segments(pathname: string): seq<string> {
    Filter(SplitOn(pathname, '/'), NonEmpty)
  }

  /** The concatenation of a list of strings. */
  function Concat(parts: seq<string>): string {
    if parts == [] then "" else parts[0] + Concat(parts[1..])
  }

  lemma {:induction false} ConcatSplit(s: string, c: char)
    ensures Concat(SplitOn(s, c)) == RemoveChar(s, c)
  {
    if s != [] {
      ConcatSplit(s[1..], c);
      var rest := SplitOn(s[1..], c);
      if s[0] == c {
        assert SplitOn(s, c) == [""] + rest;
        assert ([""] + rest)[1..] == rest;
      } else {
        var parts := [[s[0]] + rest[0]] + rest[1..];
        assert SplitOn(s, c) == parts;
        assert parts[1..] == rest[1..];
        assert Concat(rest) == rest[0] + Concat(rest[1..]);
      }
    }
  }

  lemma {:induction false} ConcatDropsEmpty(parts: seq<string>)
    ensures Concat(Filter(parts, NonEmpty)) == Concat(parts)
  {
    if parts != [] {
      ConcatDropsEmpty(parts[1..]);
      var rest := Filter(parts[1..], NonEmpty);
      if parts[0] != "" {
        assert Filter(parts, NonEmpty) == [parts[0]] + rest;
        assert ([parts[0]] + rest)[1..] == rest;
      } else {
        assert Filter(parts, NonEmpty) == rest;
      }
    }
  }

  /** The segments are non-empty, free of '/', and together spell out the
      path with its slashes removed. */
  lemma SegmentsSpec(pathname: string)
    ensures forall k :: 0 <= k < |Segments(pathname)| ==> Segments(pathname)[k] != "" && '/' !in Segments(pathname)[k]
    ensures Concat(Segments(pathname)) == RemoveChar(pathname, '/')
  {
    var parts := SplitOn(pathname, '/');
    forall k | 0 <= k < |Segments(pathname)| ensures '/' !in Segments(pathname)[k] {
      FilterMembership(parts, NonEmpty, Segments(pathname)[k]);
    }
    ConcatDropsEmpty(parts);
    ConcatSplit(pathname, '/');
  }

  /** The pages of the manager section and their labels (`managerPages`). */
  const ManagerPages: seq<(string, string)> := [
    ("analytics", "Analytics"), ("investment", "Investment"), ("alerts", "Alerts"),
    ("simulation", "Simulation"), ("synergy", "Synergy Analysis")]

  /** The label listed for `key` in a table of (key, label) pairs, if any. */
  function Lookup(table: seq<(string, string)>, key: string): (r: Option<string>)
    ensures r.Some? ==> exists k :: 0 <= k < |table| && table[k] == (key, r.value)
  {
    if table == [] then None
    else if table[0].0 == key then Some(table[0].1)
    else
      var r := Lookup(table[1..], key);
      assert r.Some? ==> exists k :: 0 <= k < |table[1..]| && table[1..][k] == (key, r.value);
      r
  }

  /** A key missing from the table finds nothing. */
  lemma {:induction false} LookupMissing(table: seq<(string, string)>, key: string)
    requires forall k :: 0 <= k < |table| ==> table[k].0 != key
    ensures Lookup(table, key) == None
  {
    if table != [] {
      LookupMissing(table[1..], key);
    }
  }

  /** The label of a manager page, if `key` names one. */
  function ManagerLabel(key: string): Option<string> { Lookup(ManagerPages, key) }

  const HomeCrumb := Crumb("Home", "/")
  const DashboardCrumb := Crumb("Dashboard", "/dashboard")
  const MissionPlannerCrumb := Crumb("Mission Planner", "/mission-planner")
  const PapersCrumb := Crumb("Papers", "/papers")

  /** The third crumb, if any, for the given segments. */
  function SectionCrumb(segs: seq<string>): seq<Crumb> {
    if "manager" in segs then
      var current := segs[|segs| - 1];
      match ManagerLabel(current)
      case Some(caption) => [Crumb(caption, "/manager/" + current)]
      case None => []
    else if "mission-planner" in segs then [MissionPlannerCrumb]
    else if "papers" in segs then [PapersCrumb]
    else []
  }

  /** `getPageInfo` with the manager-page lookup limited to the five
      listed pages. */
  function PageInfo(pathname: string): (items: seq<Crumb>)
    ensures 2 <= |items| <= 3 && items[0] == HomeCrumb && items[1] == DashboardCrumb
  {
    [HomeCrumb, DashboardCrumb] + SectionCrumb(Segments(pathname))
  }

  /** Under the manager section there is a third crumb exactly when the last
      segment names one of the five manager pages, and it links there. */
  lemma PageInfoManager(pathname: string)
    requires "manager" in Segments(pathname)
    ensures var segs := Segments(pathname); var items := PageInfo(pathname);
      (|items| == 3 <==> ManagerLabel(segs[|segs| - 1]).Some?) &&
      (|items| == 3 ==> items[2] == Crumb(ManagerLabel(segs[|segs| - 1]).value, "/manager/" + segs[|segs| - 1]))
  {
  }

  /** Elsewhere the mission planner wins over the paper list, and a path in
      neither section gets only the two fixed crumbs. */
  lemma PageInfoOther(pathname: string)
    requires "manager" !in Segments(pathname)
    ensures var segs := Segments(pathname); var items := PageInfo(pathname);
      ("mission-planner" in segs ==> items == [HomeCrumb, DashboardCrumb, MissionPlannerCrumb]) &&
      ("mission-planner" !in segs && "papers" in segs ==> items == [HomeCrumb, DashboardCrumb, PapersCrumb]) &&
      ("mission-planner" !in segs && "papers" !in segs ==> items == [HomeCrumb, DashboardCrumb])
  {
  }

  /** No two crumbs link to the same place. */
  lemma PageInfoDistinctLinks(pathname: string)
    ensures var items := PageInfo(pathname);
      forall i, j :: 0 <= i < j < |items| ==> items[i].href != items[j].href
  {
    var items := PageInfo(pathname);
    if |items| == 3 && "manager" in Segments(pathname) {
      var segs := Segments(pathname);
      var current := segs[|segs| - 1];
      assert items[2].href == "/manager/" + current;
      assert items[2].href[1] == 'm' && |items[2].href| > 9;
      assert "/dashboard"[1] == 'd';
    }
  }

  /** `managerPages[currentPage]` as the code evaluates it: an inherited name
      also passes the truthiness test, and its `.label` is `undefined`, shown
      as no text. */
  function ManagerLabelAsWritten(key: string): Option<string> {
    if ManagerLabel(key).Some? then ManagerLabel(key)
    else if key in InheritedNames then Some("")
    else None
  }

  function SectionCrumbAsWritten(segs: seq<string>): seq<Crumb> {
    if "manager" in segs then
      var current := segs[|segs| - 1];
      match ManagerLabelAsWritten(current)
      case Some(caption) => [Crumb(caption, "/manager/" + current)]
      case None => []
    else SectionCrumb(segs)
  }

  /** `getPageInfo` as written. */
  function PageInfoAsWritten(pathname: string): (items: seq<Crumb>)
    ensures 2 <= |items| <= 3
    ensures "manager" !in Segments(pathname) ==> items == PageInfo(pathname)
  {
    [HomeCrumb, DashboardCrumb] + SectionCrumbAsWritten(Segments(pathname))
  }

  /** A path under the manager section that ends in an inherited property
      name that names no manager page gets a third, unlabelled crumb; the
      intended trail has only two crumbs.  "constructor" is such a name
      (`ConstructorLabel`). */
  lemma InheritedNameCrumb(name: string)
    requires name in InheritedNames && ManagerLabel(name) == None && '/' !in name && name != ""
    ensures |PageInfoAsWritten("/manager/" + name)| == 3
    ensures PageInfoAsWritten("/manager/" + name)[2] == Crumb("", "/manager/" + name)
    ensures |PageInfo("/manager/" + name)| == 2
  {
    NoSlashSegments(name);
    var segs := ["manager", name];
    assert segs[|segs| - 1] == name;
  }

  /** "constructor" names no manager page, yet the lookup as written finds
      an (unlabelled) entry for it. */
  lemma ConstructorLabel()
    ensures "constructor" in InheritedNames && '/' !in "constructor"
    ensures ManagerLabel("constructor") == None
    ensures ManagerLabelAsWritten("constructor") == Some("")
  {
    var name := "constructor";
    forall k | 0 <= k < |ManagerPages| ensures ManagerPages[k].0 != name {
      assert ManagerPages[k].0[0] != 'c';
    }
    LookupMissing(ManagerPages, name);
    assert InheritedNames[0] == name;
  }

  lemma NoSlashSegments(name: string)
    requires '/' !in name && name != ""
    ensures Segments("/manager/" + name) == ["manager", name]
  {
    var path := "/manager/" + name;
    assert path == "/" + "manager" + "/" + name;
    assert SplitOn(name, '/') == [name] by { NoSlashSplit(name, '/'); }
    assert path[1..] == "manager/" + name;
    SplitPrefix("manager", name, '/');
    assert SplitOn(path, '/') == [""] + SplitOn(path[1..], '/');
    assert "manager/" + name == "manager" + ['/'] + name;
    var parts := SplitOn(path, '/');
    assert parts == ["", "manager", name];
    assert parts[1..] == ["manager", name];
    assert parts[1..][1..] == [name];
    assert Filter([name], NonEmpty) == [name];
    assert Filter(parts[1..], NonEmpty) == ["manager"] + Filter([name], NonEmpty);
    assert Filter(parts, NonEmpty) == Filter(parts[1..], NonEmpty);
  }

  lemma {:induction false} NoSlashSplit(s: string, c: char)
    requires c !in s
    ensures SplitOn(s, c) == [s]
  {
    if s != [] {
      NoSlashSplit(s[1..], c);
      assert [s[0]] + s[1..] == s;
    }
  }

  lemma {:induction false} SplitPrefix(w: string, rest: string, c: char)
    requires c !in w && c !in rest
    ensures SplitOn(w + [c] + rest, c) == [w, rest]
  {
    if w == [] {
      assert w + [c] + rest == [c] + rest;
      assert ([c] + rest)[1..] == rest;
      NoSlashSplit(rest, c);
    } else {
      assert (w + [c] + rest)[1..] == w[1..] + [c] + rest;
      SplitPrefix(w[1..], rest, c);
      assert [w[0]] + w[1..] == w;
    }
  }
}
