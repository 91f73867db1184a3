/** The routes of the user interface: reading one from a path and writing it back. */
module Routing {
  datatype Tab = CatalogTab | ListTab | DetailTab | CreateTab | ProfilesTab | SchedulesTab | SettingsTab
  datatype CreateMode = FreshRun | RetryRun
  datatype Subview = ListView | CreateView | EditView
  datatype DetailSubview = Info | Logs | Viewer

  datatype Route = Route(
    tab: Tab, createMode: CreateMode, runId: string, templateId: string,
    profileSubview: Subview, profileId: string, catalogSubview: Subview, catalogId: string,
    scheduleSubview: Subview, scheduleId: string, detailSubview: DetailSubview)

  const EMPTY := Route(CatalogTab, FreshRun, "", "", ListView, "", ListView, "", ListView, "", Info)

  // ---------- segments of a path

  /** A segment between slashes, as an id has to be to come back from a path. */
  predicate IsSegment(s: string) {
    s != "" && '/' !in s
  }

  /** Where the first segment of a text ends. */
  function SlashAt(s: string): (n: nat)
    ensures n <= |s| && (n < |s| ==> s[n] == '/') && '/' !in s[..n]
  {
    if s == "" || s[0] == '/' then 0 else 1 + SlashAt(s[1..])
  }

  /** The non-empty pieces between slashes. */
  function Segments(s: string): (parts: seq<string>)
    ensures forall p | p in parts :: IsSegment(p)
    decreases |s|
  {
    if s == "" then []
    else if s[0] == '/' then Segments(s[1..])
    else [s[..SlashAt(s)]] + Segments(s[SlashAt(s)..])
  }

  function Slashed(parts: seq<string>): string {
    if parts == [] then "" else "/" + parts[0] + Slashed(parts[1..])
  }

  lemma {:induction false} SlashAfter(a: string, rest: string)
    requires '/' !in a && (rest == "" || rest[0] == '/')
    ensures SlashAt(a + rest) == |a|
  {
    if a == "" {
      assert a + rest == rest;
    } else {
      assert a[0] in a;
      assert (a + rest)[1..] == a[1..] + rest;
      SlashAfter(a[1..], rest);
    }
  }

  lemma {:induction false} FirstSegment(a: string, rest: string)
    requires IsSegment(a) && (rest == "" || rest[0] == '/')
    ensures Segments("/" + a + rest) == [a] + Segments(rest)
  {
    var tail := a + rest;
    assert "/" + a + rest == "/" + tail && ("/" + tail)[1..] == tail;
    assert a[0] in a && tail[0] == a[0];
    SlashAfter(a, rest);
    assert tail[..|a|] == a && tail[|a|..] == rest;
  }

  lemma {:induction false} SegmentsOfSlashed(parts: seq<string>)
    requires forall p | p in parts :: IsSegment(p)
    ensures Segments(Slashed(parts)) == parts
  {
    hide Segments, IsSegment;
    if parts == [] {
      assert Segments("") == [] by { NoSegments(); }
    } else {
      assert parts[0] in parts && parts == [parts[0]] + parts[1..];
      FirstSegment(parts[0], Slashed(parts[1..]));
      SegmentsOfSlashed(parts[1..]);
    }
  }

  lemma {:induction false} NoSegments()
    ensures Segments("") == []
  {
  }

  // ---------- parsing

  predicate Is(parts: seq<string>, i: nat, s: string) {
    i < |parts| && parts[i] == s
  }

  function DetailView(parts: seq<string>): DetailSubview {
    if Is(parts, 2, "logs") then Logs else if Is(parts, 2, "viewer") then Viewer else Info
  }

  function FromParts(parts: seq<string>): Route {
    if Is(parts, 0, "catalog") then
      if Is(parts, 1, "new") then EMPTY.(tab := CatalogTab, catalogSubview := CreateView)
      else if Is(parts, 2, "edit") then EMPTY.(tab := CatalogTab, catalogSubview := EditView, catalogId := parts[1])
      else EMPTY.(tab := CatalogTab)
    else if Is(parts, 0, "runs") && |parts| > 1 && parts[1] != "template" && parts[1] != "schedule" then
      EMPTY.(tab := DetailTab, runId := parts[1], detailSubview := DetailView(parts))
    else if Is(parts, 0, "create") && Is(parts, 1, "from") && |parts| > 2 then
      EMPTY.(tab := CreateTab, templateId := parts[2])
    else if Is(parts, 0, "create") then EMPTY.(tab := CreateTab)
    else if Is(parts, 0, "retry") && |parts| > 1 then
      EMPTY.(tab := CreateTab, createMode := RetryRun, runId := parts[1])
    else if Is(parts, 0, "profiles") then
      if Is(parts, 1, "new") then EMPTY.(tab := ProfilesTab, profileSubview := CreateView)
      else if Is(parts, 2, "edit") then EMPTY.(tab := ProfilesTab, profileSubview := EditView, profileId := parts[1])
      else EMPTY.(tab := ProfilesTab)
    else if Is(parts, 0, "schedules") then
      if Is(parts, 1, "new") then
        if Is(parts, 2, "from") && |parts| > 3 then
          EMPTY.(tab := SchedulesTab, scheduleSubview := CreateView, templateId := parts[3])
        else EMPTY.(tab := SchedulesTab, scheduleSubview := CreateView)
      else if Is(parts, 2, "edit") then EMPTY.(tab := SchedulesTab, scheduleSubview := EditView, scheduleId := parts[1])
      else EMPTY.(tab := SchedulesTab)
    else if Is(parts, 0, "settings") then EMPTY.(tab := SettingsTab)
    else if Is(parts, 0, "runs") then
      if Is(parts, 1, "template") && |parts| > 2 then EMPTY.(tab := ListTab, templateId := parts[2])
      else if Is(parts, 1, "schedule") && |parts| > 2 then EMPTY.(tab := ListTab, scheduleId := parts[2])
      else EMPTY.(tab := ListTab)
    else EMPTY
  }

  function Rest(prefix: string, path: string): string {
    if path == prefix || prefix + "/" <= path then path[|prefix|..] else ""
  }

  function ParseRoute(prefix: string, path: string): Route {
    FromParts(Segments(Rest(prefix, path)))
  }

  // ---------- printing

  function DetailText(d: DetailSubview): string {
    match d
    case Info => "info"
    case Logs => "logs"
    case Viewer => "viewer"
  }

  function PathFor(prefix: string, r: Route): string {
    match r.tab
    case CatalogTab =>
      if r.catalogSubview == CreateView then prefix + "/catalog/new"
      else if r.catalogSubview == EditView && r.catalogId != "" then prefix + "/catalog/" + r.catalogId + "/edit"
      else prefix + "/catalog"
    case DetailTab =>
      if r.runId != "" then prefix + "/runs/" + r.runId + "/" + DetailText(r.detailSubview) else prefix + "/runs"
    case CreateTab =>
      if r.createMode == RetryRun && r.runId != "" then prefix + "/retry/" + r.runId
      else if r.templateId != "" then prefix + "/create/from/" + r.templateId
      else prefix + "/create"
    case ProfilesTab =>
      if r.profileSubview == CreateView then prefix + "/profiles/new"
      else if r.profileSubview == EditView && r.profileId != "" then prefix + "/profiles/" + r.profileId + "/edit"
      else prefix + "/profiles"
    case SchedulesTab =>
      if r.scheduleSubview == CreateView then
        if r.templateId != "" then prefix + "/schedules/new/from/" + r.templateId else prefix + "/schedules/new"
      else if r.scheduleSubview == EditView && r.scheduleId != "" then prefix + "/schedules/" + r.scheduleId + "/edit"
      else prefix + "/schedules"
    case SettingsTab => prefix + "/settings"
    case ListTab =>
      if r.templateId != "" then prefix + "/runs/template/" + r.templateId
      else if r.scheduleId != "" then prefix + "/runs/schedule/" + r.scheduleId
      else prefix + "/runs"
  }

  // ---------- round trips

  /** The routes that say nothing a path cannot: other fields empty, ids one segment that is not reserved. */
  predicate Canonical(r: Route) {
    match r.tab
    case CatalogTab =>
      && r == EMPTY.(catalogSubview := r.catalogSubview, catalogId := r.catalogId)
      && (if r.catalogSubview == EditView then IsSegment(r.catalogId) && r.catalogId != "new" else r.catalogId == "")
    case DetailTab =>
      && r == EMPTY.(tab := DetailTab, runId := r.runId, detailSubview := r.detailSubview)
      && IsSegment(r.runId) && r.runId != "template" && r.runId != "schedule"
    case CreateTab =>
      && r == EMPTY.(tab := CreateTab, createMode := r.createMode, runId := r.runId, templateId := r.templateId)
      && (if r.createMode == RetryRun then IsSegment(r.runId) && r.templateId == ""
          else r.runId == "" && (r.templateId == "" || IsSegment(r.templateId)))
    case ProfilesTab =>
      && r == EMPTY.(tab := ProfilesTab, profileSubview := r.profileSubview, profileId := r.profileId)
      && (if r.profileSubview == EditView then IsSegment(r.profileId) && r.profileId != "new" else r.profileId == "")
    case SchedulesTab =>
      && r == EMPTY.(tab := SchedulesTab, scheduleSubview := r.scheduleSubview, scheduleId := r.scheduleId,
                     templateId := r.templateId)
      && (if r.scheduleSubview == EditView then IsSegment(r.scheduleId) && r.scheduleId != "new"
          else r.scheduleId == "")
      && (r.templateId == "" || (r.scheduleSubview == CreateView && IsSegment(r.templateId)))
    case SettingsTab => r == EMPTY.(tab := SettingsTab)
    case ListTab =>
      && r == EMPTY.(tab := ListTab, templateId := r.templateId, scheduleId := r.scheduleId)
      && (r.templateId == "" || IsSegment(r.templateId)) && (r.scheduleId == "" || IsSegment(r.scheduleId))
      && (r.templateId == "" || r.scheduleId == "")
  }

  /** The segments a canonical route is written with. */
  function Parts(r: Route): seq<string> {
    match r.tab
    case CatalogTab =>
      if r.catalogSubview == CreateView then ["catalog", "new"]
      else if r.catalogSubview == EditView then ["catalog", r.catalogId, "edit"]
      else ["catalog"]
    case DetailTab => ["runs", r.runId, DetailText(r.detailSubview)]
    case CreateTab =>
      if r.createMode == RetryRun then ["retry", r.runId]
      else if r.templateId != "" then ["create", "from", r.templateId]
      else ["create"]
    case ProfilesTab =>
      if r.profileSubview == CreateView then ["profiles", "new"]
      else if r.profileSubview == EditView then ["profiles", r.profileId, "edit"]
      else ["profiles"]
    case SchedulesTab =>
      if r.scheduleSubview == CreateView then
        if r.templateId != "" then ["schedules", "new", "from", r.templateId] else ["schedules", "new"]
      else if r.scheduleSubview == EditView then ["schedules", r.scheduleId, "edit"]
      else ["schedules"]
    case SettingsTab => ["settings"]
    case ListTab =>
      if r.templateId != "" then ["runs", "template", r.templateId]
      else if r.scheduleId != "" then ["runs", "schedule", r.scheduleId]
      else ["runs"]
  }

  lemma {:induction false} Glue(x: string, a: string, b: string)
    ensures x + a + b == x + (a + b)
  {
  }

  /** A path grows by one segment at its end. */
  lemma {:induction false} SlashedGrows(prefix: string, parts: seq<string>, last: string)
    ensures prefix + Slashed(parts + [last]) == prefix + Slashed(parts) + ("/" + last)
    decreases |parts|
  {
    if parts == [] {
      assert ([] + [last])[1..] == [];
    } else {
      var tail := parts[1..];
      assert (parts + [last])[0] == parts[0] && (parts + [last])[1..] == tail + [last];
      SlashedGrows(prefix + ("/" + parts[0]), tail, last);
      assert prefix + ("/" + parts[0]) + Slashed(tail + [last]) == prefix + ("/" + parts[0] + Slashed(tail + [last]));
      assert prefix + ("/" + parts[0]) + Slashed(tail) == prefix + ("/" + parts[0] + Slashed(tail));
    }
  }

  lemma {:induction false} OneSegment(prefix: string, a: string)
    ensures prefix + Slashed([a]) == prefix + ("/" + a)
  {
    SlashedGrows(prefix, [], a);
    assert [] + [a] == [a];
  }

  lemma {:induction false} TwoSegments(prefix: string, a: string, b: string)
    ensures prefix + Slashed([a, b]) == prefix + ("/" + a) + ("/" + b)
  {
    hide Slashed;
    OneSegment(prefix, a);
    SlashedGrows(prefix, [a], b);
    assert [a] + [b] == [a, b];
  }

  lemma {:induction false} ThreeSegments(prefix: string, a: string, b: string, c: string)
    ensures prefix + Slashed([a, b, c]) == prefix + ("/" + a) + ("/" + b) + ("/" + c)
  {
    hide Slashed;
    TwoSegments(prefix, a, b);
    SlashedGrows(prefix, [a, b], c);
    assert [a, b] + [c] == [a, b, c];
  }

  lemma {:induction false} FourSegments(prefix: string, a: string, b: string, c: string, d: string)
    ensures prefix + Slashed([a, b, c, d]) == prefix + ("/" + a) + ("/" + b) + ("/" + c) + ("/" + d)
  {
    hide Slashed;
    ThreeSegments(prefix, a, b, c);
    SlashedGrows(prefix, [a, b, c], d);
    assert [a, b, c] + [d] == [a, b, c, d];
  }

  /** Fixed text with a segment after it. */
  lemma {:induction false} WithId(prefix: string, word: string, text: string, id: string)
    requires text == "/" + word + "/"
    ensures prefix + text + id == prefix + ("/" + word) + ("/" + id)
  {
    assert text == ("/" + word) + "/";
    Glue(prefix, "/" + word, "/");
    Glue(prefix + ("/" + word), "/", id);
  }

  lemma {:induction false} EditPath(prefix: string, word: string, text: string, id: string)
    requires text == "/" + word + "/"
    ensures prefix + Slashed([word, id, "edit"]) == prefix + text + id + "/edit"
  {
    hide Slashed;
    ThreeSegments(prefix, word, id, "edit");
    WithId(prefix, word, text, id);
    assert "/" + "edit" == "/edit";
  }

  lemma {:induction false} PlainPath(prefix: string, word: string, text: string)
    requires text == "/" + word
    ensures prefix + Slashed([word]) == prefix + text
  {
    OneSegment(prefix, word);
  }

  lemma {:induction false} NewPath(prefix: string, word: string, text: string)
    requires text == "/" + word + "/new"
    ensures prefix + Slashed([word, "new"]) == prefix + text
  {
    hide Slashed;
    TwoSegments(prefix, word, "new");
    assert "/" + "new" == "/new" && text == ("/" + word) + "/new";
    Glue(prefix, "/" + word, "/new");
  }

  lemma {:induction false} IdPath(prefix: string, word: string, second: string, text: string, id: string)
    requires text == "/" + word + "/" + second + "/"
    ensures prefix + Slashed([word, second, id]) == prefix + text + id
  {
    hide Slashed;
    ThreeSegments(prefix, word, second, id);
    assert text == ("/" + word) + ("/" + second) + "/";
    Glue(prefix, "/" + word, "/" + second);
    Glue(prefix, ("/" + word) + ("/" + second), "/");
    Glue(prefix + (("/" + word) + ("/" + second)), "/", id);
  }

  lemma {:induction false} CatalogPath(prefix: string, r: Route)
    requires Canonical(r) && r.tab == CatalogTab
    ensures PathFor(prefix, r) == prefix + Slashed(Parts(r))
  {
    hide Slashed;
    PlainPath(prefix, "catalog", "/catalog");
    NewPath(prefix, "catalog", "/catalog/new");
    EditPath(prefix, "catalog", "/catalog/", r.catalogId);
  }

  lemma {:induction false} ProfilesPath(prefix: string, r: Route)
    requires Canonical(r) && r.tab == ProfilesTab
    ensures PathFor(prefix, r) == prefix + Slashed(Parts(r))
  {
    hide Slashed;
    PlainPath(prefix, "profiles", "/profiles");
    NewPath(prefix, "profiles", "/profiles/new");
    EditPath(prefix, "profiles", "/profiles/", r.profileId);
  }

  lemma {:induction false} SchedulesPath(prefix: string, r: Route)
    requires Canonical(r) && r.tab == SchedulesTab
    ensures PathFor(prefix, r) == prefix + Slashed(Parts(r))
  {
    hide Slashed;
    PlainPath(prefix, "schedules", "/schedules");
    NewPath(prefix, "schedules", "/schedules/new");
    EditPath(prefix, "schedules", "/schedules/", r.scheduleId);
    FourSegments(prefix, "schedules", "new", "from", r.templateId);
    IdPath(prefix, "schedules", "new", "/schedules/new/", "from");
    ThreeSegments(prefix, "schedules", "new", "from");
    assert "/schedules/new/" + "from/" == "/schedules/new/from/" && "from" + "/" == "from/";
    Glue(prefix, "/schedules/new/", "from/");
    Glue(prefix + "/schedules/new/", "from", "/");
    Glue(prefix + "/schedules/new/" + "from", "/", r.templateId);
  }

  lemma {:induction false} DetailPath(prefix: string, r: Route)
    requires Canonical(r) && r.tab == DetailTab
    ensures PathFor(prefix, r) == prefix + Slashed(Parts(r))
  {
    hide Slashed, DetailText;
    var d := DetailText(r.detailSubview);
    ThreeSegments(prefix, "runs", r.runId, d);
    WithId(prefix, "runs", "/runs/", r.runId);
    Glue(prefix + "/runs/" + r.runId, "/", d);
  }

  lemma {:induction false} CreatePath(prefix: string, r: Route)
    requires Canonical(r) && r.tab == CreateTab
    ensures PathFor(prefix, r) == prefix + Slashed(Parts(r))
  {
    hide Slashed;
    PlainPath(prefix, "create", "/create");
    TwoSegments(prefix, "retry", r.runId);
    WithId(prefix, "retry", "/retry/", r.runId);
    IdPath(prefix, "create", "from", "/create/from/", r.templateId);
  }

  lemma {:induction false} ListPath(prefix: string, r: Route)
    requires Canonical(r) && (r.tab == ListTab || r.tab == SettingsTab)
    ensures PathFor(prefix, r) == prefix + Slashed(Parts(r))
  {
    hide Slashed;
    PlainPath(prefix, "runs", "/runs");
    PlainPath(prefix, "settings", "/settings");
    IdPath(prefix, "runs", "template", "/runs/template/", r.templateId);
    IdPath(prefix, "runs", "schedule", "/runs/schedule/", r.scheduleId);
  }

  lemma {:induction false} PathOfParts(prefix: string, r: Route)
    requires Canonical(r)
    ensures PathFor(prefix, r) == prefix + Slashed(Parts(r)) && Parts(r) != []
  {
    hide Slashed, Canonical, PathFor;
    match r.tab
    case CatalogTab => CatalogPath(prefix, r);
    case ProfilesTab => ProfilesPath(prefix, r);
    case SchedulesTab => SchedulesPath(prefix, r);
    case DetailTab => DetailPath(prefix, r);
    case CreateTab => CreatePath(prefix, r);
    case _ => ListPath(prefix, r);
  }

  lemma {:induction false} PartsAreSegments(r: Route)
    requires Canonical(r)
    ensures forall p | p in Parts(r) :: IsSegment(p)
  {
  }

  lemma {:induction false} PartsRead(r: Route)
    requires Canonical(r)
    ensures FromParts(Parts(r)) == r
  {
  }

  lemma {:induction false} RestOfPath(prefix: string, parts: seq<string>)
    requires parts != []
    ensures Rest(prefix, prefix + Slashed(parts)) == Slashed(parts)
  {
    var path := prefix + Slashed(parts);
    assert path[|prefix|..] == Slashed(parts);
    assert (prefix + "/") == path[..|prefix| + 1];
  }

  /** What is read from any path is canonical. */
  lemma {:induction false} ParsedIsCanonical(prefix: string, path: string)
    ensures Canonical(ParseRoute(prefix, path))
  {
    hide Segments;
    var parts := Segments(Rest(prefix, path));
    assert forall i | 0 <= i < |parts| :: parts[i] in parts && IsSegment(parts[i]);
  }

  lemma {:induction false} CanonicalComesBack(prefix: string, r: Route)
    requires Canonical(r)
    ensures ParseRoute(prefix, PathFor(prefix, r)) == r
  {
    hide Canonical, PathFor, Parts, Segments, FromParts, Rest;
    PathOfParts(prefix, r);
    PartsAreSegments(r);
    RestOfPath(prefix, Parts(r));
    SegmentsOfSlashed(Parts(r));
    PartsRead(r);
  }

  /** A route comes back from its path exactly if it is canonical. */
  lemma {:induction false} RouteRoundTrip(prefix: string, r: Route)
    ensures ParseRoute(prefix, PathFor(prefix, r)) == r <==> Canonical(r)
  {
    hide Canonical, PathFor, ParseRoute;
    if Canonical(r) { CanonicalComesBack(prefix, r); }
    ParsedIsCanonical(prefix, PathFor(prefix, r));
  }

  /** Reading any path, writing the route and reading it again gives the same route. */
  lemma {:induction false} PathRoundTrip(prefix: string, path: string)
    ensures ParseRoute(prefix, PathFor(prefix, ParseRoute(prefix, path))) == ParseRoute(prefix, path)
  {
    hide Canonical, PathFor, ParseRoute;
    ParsedIsCanonical(prefix, path);
    CanonicalComesBack(prefix, ParseRoute(prefix, path));
  }
}
