/** What each path of the user interface stands for, and which route any other path is read as. */
module Paths {
  import opened Routing

  // ---------- segments

  /** The segments of a text are those before a slash and those after it; a text without one is its own segment. */
  lemma {:induction false} SegmentsJoin(a: string, b: string)
    ensures Segments(a + "/" + b) == Segments(a) + Segments(b)
    ensures IsSegment(a) ==> Segments(a) == [a]
    decreases |a|
  {
    var s := a + "/" + b;
    if a == "" {
      assert s[1..] == b;
    } else if a[0] == '/' {
      assert s[1..] == a[1..] + "/" + b;
      SegmentsJoin(a[1..], b);
      assert a[0] in a;
    } else {
      var n := SlashAt(a);
      SlashAfter(a[..n], s[n..]);
      assert s == a[..n] + s[n..];
      assert s[n..] == a[n..] + "/" + b;
      SegmentsJoin(a[n..], b);
      NoSegments();
      if IsSegment(a) { assert n == |a| && a[..n] == a && a[n..] == ""; }
    }
  }

  // ---------- the path of each screen

  /** A route is written as that path, and the path is read as that route. */
  predicate Leads(prefix: string, text: string, r: Route) {
    PathFor(prefix, r) == prefix + text && ParseRoute(prefix, prefix + text) == r
  }

  lemma {:induction false} LeadsBack(prefix: string, text: string, r: Route)
    requires Canonical(r) && PathFor(prefix, r) == prefix + text
    ensures Leads(prefix, text, r)
  {
    CanonicalComesBack(prefix, r);
  }

  lemma {:induction false} CatalogScreens(prefix: string, id: string)
    ensures Leads(prefix, "/catalog", EMPTY)
    ensures Leads(prefix, "/catalog/new", EMPTY.(catalogSubview := CreateView))
    ensures IsSegment(id) && id != "new" ==>
              Leads(prefix, "/catalog/" + id + "/edit", EMPTY.(catalogSubview := EditView, catalogId := id))
  {
    hide Leads;
    LeadsBack(prefix, "/catalog", EMPTY);
    LeadsBack(prefix, "/catalog/new", EMPTY.(catalogSubview := CreateView));
    if IsSegment(id) && id != "new" {
      assert prefix + "/catalog/" + id + "/edit" == prefix + ("/catalog/" + id + "/edit");
      LeadsBack(prefix, "/catalog/" + id + "/edit", EMPTY.(catalogSubview := EditView, catalogId := id));
    }
  }

  lemma {:induction false} ProfileScreens(prefix: string, id: string)
    ensures Leads(prefix, "/profiles", EMPTY.(tab := ProfilesTab))
    ensures Leads(prefix, "/profiles/new", EMPTY.(tab := ProfilesTab, profileSubview := CreateView))
    ensures IsSegment(id) && id != "new" ==>
              Leads(prefix, "/profiles/" + id + "/edit",
                    EMPTY.(tab := ProfilesTab, profileSubview := EditView, profileId := id))
  {
    hide Leads;
    LeadsBack(prefix, "/profiles", EMPTY.(tab := ProfilesTab));
    LeadsBack(prefix, "/profiles/new", EMPTY.(tab := ProfilesTab, profileSubview := CreateView));
    if IsSegment(id) && id != "new" {
      assert prefix + "/profiles/" + id + "/edit" == prefix + ("/profiles/" + id + "/edit");
      LeadsBack(prefix, "/profiles/" + id + "/edit",
                EMPTY.(tab := ProfilesTab, profileSubview := EditView, profileId := id));
    }
  }

  lemma {:induction false} ScheduleScreens(prefix: string, id: string)
    ensures Leads(prefix, "/schedules", EMPTY.(tab := SchedulesTab))
    ensures Leads(prefix, "/schedules/new", EMPTY.(tab := SchedulesTab, scheduleSubview := CreateView))
    ensures IsSegment(id) ==>
              Leads(prefix, "/schedules/new/from/" + id,
                    EMPTY.(tab := SchedulesTab, scheduleSubview := CreateView, templateId := id))
    ensures IsSegment(id) && id != "new" ==>
              Leads(prefix, "/schedules/" + id + "/edit",
                    EMPTY.(tab := SchedulesTab, scheduleSubview := EditView, scheduleId := id))
  {
    hide Leads;
    LeadsBack(prefix, "/schedules", EMPTY.(tab := SchedulesTab));
    LeadsBack(prefix, "/schedules/new", EMPTY.(tab := SchedulesTab, scheduleSubview := CreateView));
    if IsSegment(id) {
      Glue(prefix, "/schedules/new/from/", id);
      LeadsBack(prefix, "/schedules/new/from/" + id,
                EMPTY.(tab := SchedulesTab, scheduleSubview := CreateView, templateId := id));
    }
    if IsSegment(id) && id != "new" {
      assert prefix + "/schedules/" + id + "/edit" == prefix + ("/schedules/" + id + "/edit");
      LeadsBack(prefix, "/schedules/" + id + "/edit",
                EMPTY.(tab := SchedulesTab, scheduleSubview := EditView, scheduleId := id));
    }
  }

  lemma {:induction false} RunScreens(prefix: string, id: string)
    ensures Leads(prefix, "/runs", EMPTY.(tab := ListTab))
    ensures IsSegment(id) ==>
              && Leads(prefix, "/runs/template/" + id, EMPTY.(tab := ListTab, templateId := id))
              && Leads(prefix, "/runs/schedule/" + id, EMPTY.(tab := ListTab, scheduleId := id))
    ensures IsSegment(id) && id != "template" && id != "schedule" ==>
              && Leads(prefix, "/runs/" + id + "/info", EMPTY.(tab := DetailTab, runId := id))
              && Leads(prefix, "/runs/" + id + "/logs", EMPTY.(tab := DetailTab, runId := id, detailSubview := Logs))
              && Leads(prefix, "/runs/" + id + "/viewer",
                       EMPTY.(tab := DetailTab, runId := id, detailSubview := Viewer))
  {
    hide Leads;
    LeadsBack(prefix, "/runs", EMPTY.(tab := ListTab));
    if IsSegment(id) {
      Glue(prefix, "/runs/template/", id);
      LeadsBack(prefix, "/runs/template/" + id, EMPTY.(tab := ListTab, templateId := id));
      Glue(prefix, "/runs/schedule/", id);
      LeadsBack(prefix, "/runs/schedule/" + id, EMPTY.(tab := ListTab, scheduleId := id));
    }
    if IsSegment(id) && id != "template" && id != "schedule" {
      DetailScreen(prefix, id, Info, "/info");
      DetailScreen(prefix, id, Logs, "/logs");
      DetailScreen(prefix, id, Viewer, "/viewer");
    }
  }

  lemma {:induction false} DetailScreen(prefix: string, id: string, d: DetailSubview, text: string)
    requires IsSegment(id) && id != "template" && id != "schedule" && text == "/" + DetailText(d)
    ensures Leads(prefix, "/runs/" + id + text, EMPTY.(tab := DetailTab, runId := id, detailSubview := d))
  {
    hide Leads;
    assert prefix + "/runs/" + id + "/" + DetailText(d) == prefix + ("/runs/" + id + text);
    LeadsBack(prefix, "/runs/" + id + text, EMPTY.(tab := DetailTab, runId := id, detailSubview := d));
  }

  lemma {:induction false} OtherScreens(prefix: string, id: string)
    ensures Leads(prefix, "/settings", EMPTY.(tab := SettingsTab))
    ensures Leads(prefix, "/create", EMPTY.(tab := CreateTab))
    ensures IsSegment(id) ==>
              && Leads(prefix, "/create/from/" + id, EMPTY.(tab := CreateTab, templateId := id))
              && Leads(prefix, "/retry/" + id, EMPTY.(tab := CreateTab, createMode := RetryRun, runId := id))
  {
    hide Leads;
    LeadsBack(prefix, "/settings", EMPTY.(tab := SettingsTab));
    LeadsBack(prefix, "/create", EMPTY.(tab := CreateTab));
    if IsSegment(id) {
      Glue(prefix, "/create/from/", id);
      LeadsBack(prefix, "/create/from/" + id, EMPTY.(tab := CreateTab, templateId := id));
      Glue(prefix, "/retry/", id);
      LeadsBack(prefix, "/retry/" + id, EMPTY.(tab := CreateTab, createMode := RetryRun, runId := id));
    }
  }

  // ---------- any path

  /** The segments a path needs to stand for a route: those it is written with, where a run needs no view named. */
  function Address(r: Route): seq<string> {
    if r.tab == DetailTab && r.detailSubview == Info then ["runs", r.runId] else Parts(r)
  }

  /** A path of those segments begins with the address of a route. */
  predicate StandsFor(parts: seq<string>, r: Route) {
    Canonical(r) && Address(r) <= parts
  }

  /** Every segment holds something. */
  predicate Filled(parts: seq<string>) {
    forall i | 0 <= i < |parts| :: parts[i] != ""
  }

  lemma {:induction false} ReadAtItsAddress(parts: seq<string>, r: Route)
    requires StandsFor(parts, r) && Filled(parts)
    ensures FromParts(parts) == r || |Address(r)| < |Address(FromParts(parts))|
  {
    hide FromParts, Canonical, IsSegment, Address;
    if r.tab == DetailTab || r.tab == ListTab {
      RunsAtTheirAddress(parts, r);
    } else if r.tab == CreateTab || r.tab == SettingsTab {
      OthersAtTheirAddress(parts, r);
    } else if r.tab == SchedulesTab {
      SchedulesAtTheirAddress(parts, r);
    } else {
      EditsAtTheirAddress(parts, r);
    }
  }

  lemma {:induction false} RunsAtTheirAddress(parts: seq<string>, r: Route)
    requires StandsFor(parts, r) && Filled(parts) && (r.tab == DetailTab || r.tab == ListTab)
    ensures FromParts(parts) == r || |Address(r)| < |Address(FromParts(parts))|
  {
    hide IsSegment;
    var address := Address(r);
    assert forall i | 0 <= i < |address| :: parts[i] == address[i];
  }

  lemma {:induction false} EditsAtTheirAddress(parts: seq<string>, r: Route)
    requires StandsFor(parts, r) && Filled(parts) && (r.tab == CatalogTab || r.tab == ProfilesTab)
    ensures FromParts(parts) == r || |Address(r)| < |Address(FromParts(parts))|
  {
    hide IsSegment;
    var address := Address(r);
    assert forall i | 0 <= i < |address| :: parts[i] == address[i];
  }

  lemma {:induction false} SchedulesAtTheirAddress(parts: seq<string>, r: Route)
    requires StandsFor(parts, r) && Filled(parts) && r.tab == SchedulesTab
    ensures FromParts(parts) == r || |Address(r)| < |Address(FromParts(parts))|
  {
    hide IsSegment;
    var address := Address(r);
    assert forall i | 0 <= i < |address| :: parts[i] == address[i];
  }

  lemma {:induction false} OthersAtTheirAddress(parts: seq<string>, r: Route)
    requires StandsFor(parts, r) && Filled(parts) && (r.tab == CreateTab || r.tab == SettingsTab)
    ensures FromParts(parts) == r || |Address(r)| < |Address(FromParts(parts))|
  {
    hide IsSegment;
    var address := Address(r);
    assert forall i | 0 <= i < |address| :: parts[i] == address[i];
  }

  lemma {:induction false} AddressIsRead(parts: seq<string>)
    requires Filled(parts) && Canonical(FromParts(parts))
    ensures StandsFor(parts, FromParts(parts)) || FromParts(parts) == EMPTY
  {
    hide Canonical, IsSegment, Address, FromParts;
    var r := FromParts(parts);
    if r.tab == CatalogTab || r.tab == ProfilesTab || r.tab == SchedulesTab {
      EditAddressIsRead(parts);
    } else {
      OtherAddressIsRead(parts);
    }
  }

  lemma {:induction false} EditAddressIsRead(parts: seq<string>)
    requires Filled(parts) && FromParts(parts).tab in {CatalogTab, ProfilesTab, SchedulesTab}
    ensures Address(FromParts(parts)) <= parts || FromParts(parts) == EMPTY
  {
  }

  lemma {:induction false} OtherAddressIsRead(parts: seq<string>)
    requires Filled(parts) && FromParts(parts).tab in {DetailTab, ListTab, CreateTab, SettingsTab}
    ensures Address(FromParts(parts)) <= parts
  {
  }

  /**
   * A path below the prefix is read as the route with the longest address it begins with, whatever follows; one that
   * begins with no address, or is not below the prefix, is read as the catalog.
   */
  lemma {:induction false} LongestMatch(prefix: string, rest: string, r: Route)
    requires rest == "" || rest[0] == '/'
    ensures var read, parts := ParseRoute(prefix, prefix + rest), Segments(rest);
            && (StandsFor(parts, r) ==>
                  StandsFor(parts, read) && (read == r || |Address(r)| < |Address(read)|))
            && (StandsFor(parts, read) || read == EMPTY)
  {
    hide StandsFor, FromParts, Segments, Address, Canonical;
    var parts := Segments(rest);
    BelowPrefix(prefix, rest);
    ParsedIsCanonical(prefix, prefix + rest);
    assert Filled(parts) by { assert forall i | 0 <= i < |parts| :: parts[i] in parts && IsSegment(parts[i]); }
    AddressIsRead(parts);
    if StandsFor(parts, r) {
      ReadAtItsAddress(parts, r);
      LongerThanCatalog(parts, r);
    }
  }

  /** Every address has a segment, the catalog's only one. */
  lemma {:induction false} LongerThanCatalog(parts: seq<string>, r: Route)
    requires StandsFor(parts, r)
    ensures |Address(EMPTY)| <= |Address(r)|
  {
  }

  lemma {:induction false} BelowPrefix(prefix: string, rest: string)
    requires rest == "" || rest[0] == '/'
    ensures Rest(prefix, prefix + rest) == rest
  {
    var path := prefix + rest;
    assert path[|prefix|..] == rest;
    if rest != "" { assert prefix + "/" == path[..|prefix| + 1]; }
  }

  lemma {:induction false} Elsewhere(prefix: string, path: string)
    requires path != prefix && !(prefix + "/" <= path)
    ensures ParseRoute(prefix, path) == EMPTY
  {
    NoSegments();
  }
}
