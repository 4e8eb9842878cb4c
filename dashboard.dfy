/** The dashboard's list state: the reducer, the optimistic delete with rollback, and the count label. */
module Dashboard {
  import opened Wrappers
  import opened JsString

  datatype SbomListItem = SbomListItem(
    id: string,
    name: string,
    filename: string,
    format: string,
    status: string,
    uploadedAt: string,
    projectId: string,
    projectName: string,
    componentCount: nat)

  datatype Status = Idle | Loading | Error

  datatype State = State(items: seq<SbomListItem>, status: Status, error: string)

  datatype Action = LOAD | SUCCESS(items: seq<SbomListItem>) | ERROR(error: string)

  /** The `useReducer` initial state. */
  const Initial: State := State([], Loading, "")

  function Reducer(state: State, action: Action): (r: State)
    ensures action.LOAD? ==> r.items == state.items && r.status == Loading && r.error == ""
    ensures action.SUCCESS? ==> r.items == action.items && r.status == Idle && r.error == ""
    ensures action.ERROR? ==> r.items == state.items && r.status == Error && r.error == action.error
    ensures r.items != state.items ==> action.SUCCESS?
    ensures r.error != "" ==> r.status == Error
  {
    match action
    case LOAD => state.(status := Loading, error := "")
    case SUCCESS(items) => State(items, Idle, "")
    case ERROR(error) => state.(status := Error, error := error)
  }

  /** Whatever came before, a SUCCESS fixes the whole state: later states depend only on it. */
  lemma SuccessForgetsHistory(s: State, t: State, items: seq<SbomListItem>)
    ensures Reducer(s, SUCCESS(items)) == Reducer(t, SUCCESS(items))
  {
  }

  /** The items whose id differs from `id`, in their original order. */
  function Without(items: seq<SbomListItem>, id: string): seq<SbomListItem> {
    if items == [] then []
    else (if items[0].id != id then [items[0]] else []) + Without(items[1..], id)
  }

  function CountId(items: seq<SbomListItem>, id: string): nat {
    if items == [] then 0 else (if items[0].id == id then 1 else 0) + CountId(items[1..], id)
  }

  /** Filtering keeps exactly the items with another id, and drops one element per item with that id. */
  lemma {:induction false} WithoutMembers(items: seq<SbomListItem>, id: string)
    ensures forall x :: x in Without(items, id) <==> x in items && x.id != id
    ensures |Without(items, id)| + CountId(items, id) == |items|
  {
    if items != [] {
      WithoutMembers(items[1..], id);
      assert items == [items[0]] + items[1..];
    }
  }

  /** Filtering is applied piecewise, so the relative order of the kept items is preserved. */
  lemma {:induction false} WithoutAppend(a: seq<SbomListItem>, b: seq<SbomListItem>, id: string)
    ensures Without(a + b, id) == Without(a, id) + Without(b, id)
  {
    if a == [] {
      assert a + b == b;
    } else {
      assert (a + b)[1..] == a[1..] + b;
      WithoutAppend(a[1..], b, id);
    }
  }

  /** Deleting an id that no item has leaves the list unchanged. */
  lemma {:induction false} WithoutAbsent(items: seq<SbomListItem>, id: string)
    requires forall k :: 0 <= k < |items| ==> items[k].id != id
    ensures Without(items, id) == items
  {
    if items != [] {
      WithoutAbsent(items[1..], id);
    }
  }

  /** How the DELETE request ends: an ok response, a refusal (`error` is the `error` field of a
      JSON body, if any), or a request that throws (a network error) before any response. */
  datatype DeleteResponse = DeleteOk | DeleteFailed(error: Option<string>) | DeleteThrew

  /** The message shown after a refused delete: the server's error text if it sent one, otherwise a fixed default. */
  function FailureMessage(error: Option<string>): string {
    error.GetOr("Failed to delete SBOM")
  }

  /** The label next to the search box: a loading note, or the number of listed SBOMs, mentioning the query when there is one. */
  function CountLabel(loading: bool, debouncedQ: string, count: nat): (r: string)
    ensures r == "Loading\U{2026}" <==> loading
    ensures !loading && Trim(debouncedQ) != "" ==>
      r == Decimal(count) + " SBOM(s) match \"" + Trim(debouncedQ) + "\""
    ensures !loading && Trim(debouncedQ) == "" ==> r == Decimal(count) + " SBOM(s)"
  {
    if loading then "Loading\U{2026}"
    else if Trim(debouncedQ) != "" then Decimal(count) + " SBOM(s) match \"" + Trim(debouncedQ) + "\""
    else Decimal(count) + " SBOM(s)"
  }

  /** The component's reducer-held state and the two halves of `deleteSbom`, split at its `await`. */
  class DashboardClient {
    var state: State

    constructor ()
      ensures state == Initial
    {
      state := Initial;
    }

    method Dispatch(action: Action)
      modifies this
      ensures state == Reducer(old(state), action)
    {
      state := Reducer(state, action);
    }

    /** Up to the DELETE request: unless the user cancels the confirmation, remember the
        current items as `prev` and show them without the deleted id. */
    method DeleteSbom(id: string, confirmed: bool) returns (prev: Option<seq<SbomListItem>>)
      modifies this
      ensures !confirmed ==> prev == None && state == old(state)
      ensures confirmed ==> prev == Some(old(state).items)
      ensures confirmed ==> state == State(Without(old(state).items, id), Idle, "")
    {
      if !confirmed {
        return None;
      }
      prev := Some(state.items);
      Dispatch(SUCCESS(Without(state.items, id)));
    }

    /** After the request: on a refusal restore `prev` and show the error; on success start the
        refresh, whose synchronous part is a LOAD (the fetch itself is not modelled). A request
        that throws leaves the function before its rollback, so the state stays as it was. */
    method SettleDelete(prev: seq<SbomListItem>, response: DeleteResponse)
      modifies this
      ensures response.DeleteFailed? ==> state == State(prev, Error, FailureMessage(response.error))
      ensures response.DeleteOk? ==> state == old(state).(status := Loading, error := "")
      ensures response.DeleteThrew? ==> state == old(state)
    {
      if response.DeleteThrew? {
        return;
      }
      if response.DeleteFailed? {
        Dispatch(SUCCESS(prev));
        Dispatch(ERROR(FailureMessage(response.error)));
        return;
      }
      Dispatch(LOAD);
    }
  }

  /** A delete the server refuses ends exactly where it began, except that the status is "error". */
  method FailedDeleteRollsBack(client: DashboardClient, id: string, error: Option<string>)
    modifies client
    ensures client.state == State(old(client.state.items), Error, FailureMessage(error))
  {
    var prev := client.DeleteSbom(id, true);
    client.SettleDelete(prev.value, DeleteFailed(error));
  }

  /** A delete whose request throws is never rolled back: the list stays without the item,
      with status "idle" and no error shown. */
  method ThrownDeleteKeepsOptimisticList(client: DashboardClient, id: string)
    modifies client
    ensures client.state == State(Without(old(client.state.items), id), Idle, "")
  {
    var prev := client.DeleteSbom(id, true);
    client.SettleDelete(prev.value, DeleteThrew);
  }
}
