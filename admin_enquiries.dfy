/**
  The admin "Landing Page Leads" page: the query string sent for a status tab,
  the badge colours per status, and the page's state (loaded leads, server
  stats, the loading flag, the selected tab, the search box and the row whose
  update is in flight). Network calls are split into a start, which returns the
  request the page sends, and a finish, which receives what came back.
 */
module AdminEnquiries {
  import opened Wrappers
  import opened LeadSearch

  const ListPath := "/project-enquiries/all"
  const ItemPathPrefix := "/project-enquiries/"
  const QueryPrefix := "?status="
  const LoginPage := "admin-login"
  const UpdateFailedMessage := "Failed to update status"
  const DeleteFailedMessage := "Failed to delete enquiry"

  /** The query appended to the list path for a status tab: nothing for the
      empty status or "all", otherwise the status itself, not URL-encoded. */
  function StatusQuery(status: string): (q: string)
    ensures q == "" <==> status == "" || status == "all"
    ensures q != "" ==> |q| == |QueryPrefix| + |status| && q[..|QueryPrefix|] == QueryPrefix &&
                        q[|QueryPrefix|..] == status
  {
    if status != "" && status != "all" then QueryPrefix + status else ""
  }

  /** Distinct tabs ask for distinct lists, except that "" and "all" both ask for every lead. */
  lemma StatusQueryInjective(a: string, b: string)
    requires StatusQuery(a) == StatusQuery(b)
    ensures a == b || ((a == "" || a == "all") && (b == "" || b == "all"))
  {
    if StatusQuery(a) != "" {
      assert a == StatusQuery(a)[|QueryPrefix|..] == b;
    }
  }

  /** The "No Response" tab's id keeps its space in the query. */
  lemma NotRespondedQuery()
    ensures StatusQuery("not responded") == "?status=not responded"
  {
  }

  const ConvertedClasses := "bg-green-100 text-green-700 border-green-200"
  const ContactedClasses := "bg-blue-100 text-blue-700 border-blue-200"
  const InterestedClasses := "bg-purple-100 text-purple-700 border-purple-200"
  const NeutralClasses := "bg-gray-100 text-gray-700 border-gray-200"

  /** The three statuses that get a colour of their own. */
  predicate IsColoured(status: string) {
    status == "converted" || status == "contacted" || status == "interested"
  }

  /** `getStatusColor`: green, blue and purple for the coloured statuses; grey
      for "not responded" and for every other string. */
  function StatusColor(status: string): (classes: string)
    ensures classes == NeutralClasses <==> !IsColoured(status)
    ensures status == "not responded" ==> classes == NeutralClasses
  {
    match status
    case "converted" => ConvertedClasses
    case "contacted" => ContactedClasses
    case "interested" => InterestedClasses
    case "not responded" => NeutralClasses
    case _ => NeutralClasses
  }

  /** Badges tell the coloured statuses apart, and from every other status. */
  lemma StatusColorDistinguishes(a: string, b: string)
    requires IsColoured(a)
    requires StatusColor(a) == StatusColor(b)
    ensures a == b
  {
  }

  /** The counters shown above the table, exactly as the server sent them. */
  datatype Stats = Stats(total: int, contacted: int, converted: int, interested: int, notResponded: int)

  const ZeroStats := Stats(0, 0, 0, 0, 0)

  /** What `api.get` of the list produced: a response body, or a thrown error. */
  datatype FetchOutcome =
    | Response(success: bool, data: seq<Enquiry>, stats: Stats)
    | Failure

  /** A request the page sends to the server. */
  datatype Request =
    | Get(path: string)
    | Put(path: string, status: string)
    | Delete(path: string)

  /** The status values that ask for every lead. */
  predicate IsEveryLead(status: string) {
    status == "" || status == "all"
  }

  /** The GET that `fetchEnquiries` sends for a status. */
  function ListRequest(status: string): (req: Request) {
    Get(ListPath + StatusQuery(status))
  }

  /** Two tabs send the same list request exactly when they are the same tab
      or both ask for every lead. */
  lemma ListRequestInjective(a: string, b: string)
    ensures ListRequest(a) == ListRequest(b) <==> a == b || (IsEveryLead(a) && IsEveryLead(b))
  {
    if ListRequest(a) == ListRequest(b) {
      assert StatusQuery(a) == ListRequest(a).path[|ListPath|..];
      assert StatusQuery(b) == ListRequest(b).path[|ListPath|..];
      StatusQueryInjective(a, b);
    }
  }

  /** What a status-update or delete handler closed over when the user acted:
      the row's id and the tab selected in the render that created the handler.
      The re-fetch after the request uses this tab, not the one selected when
      the request comes back. */
  datatype PendingAction = PendingAction(id: string, tab: string)

  /** What the content area shows. */
  datatype Screen = Spinner | NoLeads | Rows(rows: seq<Enquiry>)

  class EnquiriesPage {
    var enquiries: seq<Enquiry>
    var stats: Stats
    var loading: bool
    var filter: string
    var searchTerm: string
    var actionLoading: Option<string>

    constructor ()
      ensures enquiries == [] && stats == ZeroStats && !loading
      ensures filter == "all" && searchTerm == "" && actionLoading == None
    {
      enquiries := [];
      stats := ZeroStats;
      loading := false;
      filter := "all";
      searchTerm := "";
      actionLoading := None;
    }

    /** The status selector of the row with this id is disabled. */
    predicate RowDisabled(id: string): (disabled: bool)
      reads this
      ensures disabled ==> forall other :: other != id ==> actionLoading != Some(other)
    {
      actionLoading == Some(id)
    }

    /** The content area: the loader while loading, "No leads found" when no
        loaded lead matches the search, otherwise the matching leads in order. */
    function View(): (v: Screen)
      reads this
      ensures v == Spinner <==> loading
      ensures v == NoLeads <==> !loading && forall e :: e in enquiries ==> !Matches(e, searchTerm)
      ensures v.Rows? ==> v.rows == Filter(enquiries, searchTerm) && v.rows != []
    {
      FilterEmptyIff(enquiries, searchTerm);
      if loading then Spinner
      else if Filter(enquiries, searchTerm) == [] then NoLeads
      else Rows(Filter(enquiries, searchTerm))
    }

    /** `fetchEnquiries` up to the `await`: raises the loading flag and sends the list request. */
    method StartFetch(status: string) returns (req: Request)
      modifies this`loading
      ensures loading
      ensures req == ListRequest(status)
    {
      loading := true;
      req := Get(ListPath + StatusQuery(status));
    }

    /** `fetchEnquiries` after the `await`: a successful response replaces the
        leads and the stats; an unsuccessful one or an error leaves both as
        they were; the loading flag is lowered either way. */
    method FinishFetch(outcome: FetchOutcome)
      modifies this`enquiries, this`stats, this`loading
      ensures !loading
      ensures outcome.Response? && outcome.success ==>
                enquiries == outcome.data && stats == outcome.stats
      ensures !(outcome.Response? && outcome.success) ==>
                enquiries == old(enquiries) && stats == old(stats)
    {
      if outcome.Response? && outcome.success {
        enquiries := outcome.data;
        stats := outcome.stats;
      }
      loading := false;
    }

    /** A whole `fetchEnquiries` whose request completes before anything else happens. */
    method FetchEnquiries(status: string, outcome: FetchOutcome) returns (req: Request)
      modifies this`enquiries, this`stats, this`loading
      ensures req == ListRequest(status)
      ensures !loading
      ensures outcome.Response? && outcome.success ==>
                enquiries == outcome.data && stats == outcome.stats
      ensures !(outcome.Response? && outcome.success) ==>
                enquiries == old(enquiries) && stats == old(stats)
    {
      req := StartFetch(status);
      FinishFetch(outcome);
    }

    /** The effect on `[filter]`: without a token go to the login page,
        otherwise start fetching the selected tab. */
    method FilterEffect(hasToken: bool) returns (navigate: Option<string>, req: Option<Request>)
      modifies this`loading
      ensures !hasToken ==> navigate == Some(LoginPage) && req == None && loading == old(loading)
      ensures hasToken ==> navigate == None && req == Some(ListRequest(filter)) && loading
    {
      if !hasToken {
        navigate, req := Some(LoginPage), None;
      } else {
        var r := StartFetch(filter);
        navigate, req := None, Some(r);
      }
    }

    /** A click on a status tab. The effect runs only when the tab changes. */
    method SelectFilter(f: string, hasToken: bool) returns (navigate: Option<string>, req: Option<Request>)
      modifies this`filter, this`loading
      ensures filter == f
      ensures f == old(filter) ==> navigate == None && req == None && loading == old(loading)
      ensures f != old(filter) && !hasToken ==>
                navigate == Some(LoginPage) && req == None && loading == old(loading)
      ensures f != old(filter) && hasToken ==>
                navigate == None && req == Some(ListRequest(f)) && loading
    {
      var changed := f != filter;
      filter := f;
      if changed {
        navigate, req := FilterEffect(hasToken);
      } else {
        navigate, req := None, None;
      }
    }

    /** Typing in the search box. */
    method SetSearchTerm(term: string)
      modifies this`searchTerm
      ensures searchTerm == term
      ensures !loading ==> View() == (if Filter(enquiries, term) == [] then NoLeads else Rows(Filter(enquiries, term)))
    {
      searchTerm := term;
    }

    /** `handleStatusUpdate` up to the `await`: marks the row busy and sends
        the update; the handler remembers the tab selected at the click. */
    method StartStatusUpdate(id: string, newStatus: string) returns (req: Request, pending: PendingAction)
      modifies this`actionLoading
      ensures actionLoading == Some(id)
      ensures forall other :: RowDisabled(other) <==> other == id
      ensures req == Put(ItemPathPrefix + id, newStatus)
      ensures pending == PendingAction(id, filter)
    {
      actionLoading := Some(id);
      req := Put(ItemPathPrefix + id, newStatus);
      pending := PendingAction(id, filter);
    }

    /** `handleStatusUpdate` after the `await`. */
    method FinishStatusUpdate(pending: PendingAction, succeeded: bool)
      returns (alert: Option<string>, refetch: Option<Request>)
      modifies this`actionLoading, this`loading
      ensures actionLoading == None && forall id :: !RowDisabled(id)
      ensures succeeded ==> alert == None && refetch == Some(ListRequest(pending.tab)) && loading
      ensures !succeeded ==>
                alert == Some(UpdateFailedMessage) && refetch == None && loading == old(loading)
    {
      alert, refetch := FinishAction(pending, succeeded, UpdateFailedMessage);
    }

    /** `handleDelete` up to the `await`: nothing happens unless the user confirmed. */
    method StartDelete(id: string, confirmed: bool) returns (req: Option<Request>, pending: Option<PendingAction>)
      modifies this`actionLoading
      ensures confirmed ==> actionLoading == Some(id) && req == Some(Delete(ItemPathPrefix + id))
      ensures confirmed ==> forall other :: RowDisabled(other) <==> other == id
      ensures confirmed ==> pending == Some(PendingAction(id, filter))
      ensures !confirmed ==> actionLoading == old(actionLoading) && req == None && pending == None
    {
      if confirmed {
        actionLoading := Some(id);
        req := Some(Delete(ItemPathPrefix + id));
        pending := Some(PendingAction(id, filter));
      } else {
        req, pending := None, None;
      }
    }

    /** `handleDelete` after the `await`. */
    method FinishDelete(pending: PendingAction, succeeded: bool)
      returns (alert: Option<string>, refetch: Option<Request>)
      modifies this`actionLoading, this`loading
      ensures actionLoading == None && forall id :: !RowDisabled(id)
      ensures succeeded ==> alert == None && refetch == Some(ListRequest(pending.tab)) && loading
      ensures !succeeded ==>
                alert == Some(DeleteFailedMessage) && refetch == None && loading == old(loading)
    {
      alert, refetch := FinishAction(pending, succeeded, DeleteFailedMessage);
    }

    /** The shared tail of both handlers: re-fetch the tab the handler closed
        over on success, alert on failure, and in the `finally` clear the busy
        row (whichever row it is by then). */
    method FinishAction(pending: PendingAction, succeeded: bool, message: string)
      returns (alert: Option<string>, refetch: Option<Request>)
      modifies this`actionLoading, this`loading
      ensures actionLoading == None
      ensures succeeded ==> alert == None && refetch == Some(ListRequest(pending.tab)) && loading
      ensures !succeeded ==> alert == Some(message) && refetch == None && loading == old(loading)
    {
      if succeeded {
        var r := StartFetch(pending.tab);
        alert, refetch := None, Some(r);
      } else {
        alert, refetch := Some(message), None;
      }
      actionLoading := None;
    }
  }

  /** A tab switch while an update is in flight: the user is on "contacted",
      changes a row's status, switches to "all" before the update returns; the
      re-fetch after the update still asks for the contacted leads. */
  method TabSwitchDuringUpdate() returns (switchRequest: Option<Request>, refetch: Option<Request>)
    ensures switchRequest == Some(Get("/project-enquiries/all"))
    ensures refetch == Some(Get("/project-enquiries/all?status=contacted"))
  {
    var page := new EnquiriesPage();
    assert "contacted" != "all" by {
      assert |"contacted"| != |"all"|;
    }
    var navigate, initial := page.SelectFilter("contacted", true);
    var update, pending := page.StartStatusUpdate("id1", "converted");
    navigate, switchRequest := page.SelectFilter("all", true);
    var alert;
    alert, refetch := page.FinishStatusUpdate(pending, true);
    assert StatusQuery("all") == "" && ListPath + "" == ListPath;
    assert StatusQuery("contacted") == QueryPrefix + "contacted";
    assert ListPath + (QueryPrefix + "contacted") == "/project-enquiries/all?status=contacted";
  }
}
