/** The host page as the engine sees it: the `ms-chat-turn` elements in
    document order, each with its `id` (the empty string when the element has
    none) and whether its `.chat-turn-container` carries the `user` class. */
module Dom {
  import opened Wrappers

  datatype ChatTurn = ChatTurn(id: string, isUser: bool)

  type Document = seq<ChatTurn>

  /** Positions, from `i` on, of the user-marked chat turns, in document
      order. */
  function UserPositionsFrom(doc: Document, i: nat): (ps: seq<nat>)
    requires i <= |doc|
    ensures forall j :: 0 <= j < |ps| ==> i <= ps[j] < |doc| && doc[ps[j]].isUser
    ensures forall j, j' :: 0 <= j < j' < |ps| ==> ps[j] < ps[j']
    ensures forall p :: i <= p < |doc| && doc[p].isUser ==> p in ps
    decreases |doc| - i
  {
    if i == |doc| then []
    else if doc[i].isUser then [i] + UserPositionsFrom(doc, i + 1)
    else UserPositionsFrom(doc, i + 1)
  }

  /** The user-marked chat turns' positions: exactly the positions of
      user-marked turns, strictly increasing. */
  function UserPositions(doc: Document): (ps: seq<nat>)
    ensures forall j :: 0 <= j < |ps| ==> ps[j] < |doc| && doc[ps[j]].isUser
    ensures forall j, j' :: 0 <= j < j' < |ps| ==> ps[j] < ps[j']
    ensures forall p :: 0 <= p < |doc| && doc[p].isUser ==> p in ps
  {
    UserPositionsFrom(doc, 0)
  }

  /** `document.getElementById(id)` restricted to chat turns: the first chat
      turn carrying `id`; the empty id never matches. */
  function ElementById(doc: Document, id: string): (r: Option<nat>)
    ensures r.None? <==> id == "" || forall p :: 0 <= p < |doc| ==> doc[p].id != id
    ensures r.Some? ==> r.value < |doc| && doc[r.value].id == id
    ensures r.Some? ==> forall p :: 0 <= p < r.value ==> doc[p].id != id
  {
    if id == "" then None else FirstWithId(doc, id, 0)
  }

  function FirstWithId(doc: Document, id: string, i: nat): (r: Option<nat>)
    requires i <= |doc|
    ensures r.None? <==> forall p :: i <= p < |doc| ==> doc[p].id != id
    ensures r.Some? ==> i <= r.value < |doc| && doc[r.value].id == id
    ensures r.Some? ==> forall p :: i <= p < r.value ==> doc[p].id != id
    decreases |doc| - i
  {
    if i == |doc| then None
    else if doc[i].id == id then Some(i)
    else FirstWithId(doc, id, i + 1)
  }

  /** An element with this id is in the document. */
  predicate IdPresent(doc: Document, id: string) {
    ElementById(doc, id).Some?
  }

  /** The binder's scan for catalog item `k`: walk the chat turns from `i`,
      counting user-marked ones in `count`; the turn at which the count
      equals `k` supplies the id, and running off the end binds nothing. */
  function BindScan(doc: Document, k: nat, i: nat, count: nat): Option<string>
    requires i <= |doc|
    decreases |doc| - i
  {
    if i == |doc| then None
    else if doc[i].isUser then
      if count == k then Some(doc[i].id) else BindScan(doc, k, i + 1, count + 1)
    else BindScan(doc, k, i + 1, count)
  }

  /** The element id bound to the catalog item with ordinal `k`. */
  function BoundId(doc: Document, k: nat): Option<string> {
    BindScan(doc, k, 0, 0)
  }

  /** The scan picks the `k`-th user-marked chat turn (0-based), and binds
      nothing when there are at most `k` of them. */
  lemma BoundIdIsKthUserTurn(doc: Document, k: nat)
    ensures var ps := UserPositions(doc);
      BoundId(doc, k) == if k < |ps| then Some(doc[ps[k]].id) else None
  {
    BindScanFrom(doc, k, 0, 0);
  }

  lemma {:induction false} BindScanFrom(doc: Document, k: nat, i: nat, count: nat)
    requires i <= |doc| && count <= k
    ensures var ps := UserPositionsFrom(doc, i);
      BindScan(doc, k, i, count) == if k - count < |ps| then Some(doc[ps[k - count]].id) else None
    decreases |doc| - i
  {
    if i < |doc| {
      if doc[i].isUser {
        if count != k {
          BindScanFrom(doc, k, i + 1, count + 1);
        }
      } else {
        BindScanFrom(doc, k, i + 1, count);
      }
    }
  }
}
