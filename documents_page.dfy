/** The documents page: the mandatory documents still to be acknowledged, the
    card's badge and acknowledge button, and the acknowledge action. */
module DocumentsPage {

  import opened Common

  datatype Document = Document(id: string, title: string, mandatory: bool)

  /** The receipt written when the user acknowledges a document. */
  datatype Acknowledgement = Acknowledgement(documentId: string, userId: string)

  /** A mandatory document the user has not acknowledged. */
  predicate Pending(d: Document, acknowledged: set<string>) {
    d.mandatory && d.id !in acknowledged
  }

  /** `mandatoryDocs`: exactly the pending documents, in list order. */
  function MandatoryDocs(documents: seq<Document>, acknowledged: set<string>): (r: seq<Document>)
    ensures forall i :: 0 <= i < |r| ==> Pending(r[i], acknowledged)
    ensures forall i :: 0 <= i < |documents| && Pending(documents[i], acknowledged) ==> documents[i] in r
    ensures multiset(r) <= multiset(documents)
  {
    var p := (d: Document) => Pending(d, acknowledged);
    FilterMembers(documents, p);
    Filter(documents, p)
  }

  /** The acknowledge button of a card. */
  predicate ShowAcknowledgeButton(d: Document, acknowledged: set<string>) {
    Pending(d, acknowledged)
  }

  /** A listed document offers the button exactly when it is in the mandatory tab. */
  lemma ButtonIffMandatoryTab(documents: seq<Document>, acknowledged: set<string>, i: nat)
    requires i < |documents|
    ensures ShowAcknowledgeButton(documents[i], acknowledged) <==> documents[i] in MandatoryDocs(documents, acknowledged)
  {
  }

  /** The badge of a mandatory document; other documents have none. */
  function Badge(d: Document, acknowledged: set<string>): (r: Option<string>)
    ensures r.None? <==> !d.mandatory
    ensures r == Some("Ознакомлен") <==> d.mandatory && d.id in acknowledged
    ensures r == Some("Обязателен") <==> ShowAcknowledgeButton(d, acknowledged)
  {
    if !d.mandatory then None
    else if d.id in acknowledged then Some("Ознакомлен")
    else Some("Обязателен")
  }

  /** The button of the document being acknowledged is disabled and shows "...". */
  function ButtonLabel(d: Document, acknowledging: Option<string>): (r: string)
    ensures r == "..." <==> acknowledging == Some(d.id)
  {
    if acknowledging == Some(d.id) then "..." else "Ознакомлен"
  }

  /** Acknowledging a document takes it out of the mandatory tab and never adds
      one. */
  lemma AcknowledgeShrinksMandatory(documents: seq<Document>, acknowledged: set<string>, id: string)
    ensures forall i :: 0 <= i < |MandatoryDocs(documents, acknowledged + {id})| ==>
      MandatoryDocs(documents, acknowledged + {id})[i].id != id
    ensures |MandatoryDocs(documents, acknowledged + {id})| <= |MandatoryDocs(documents, acknowledged)|
  {
    FilterMonotone(documents, (d: Document) => Pending(d, acknowledged + {id}),
                   (d: Document) => Pending(d, acknowledged));
  }

  /** Acknowledging a pending document makes the tab strictly shorter. */
  lemma {:induction false} AcknowledgePendingShrinks(documents: seq<Document>, acknowledged: set<string>, i: nat)
    requires i < |documents| && Pending(documents[i], acknowledged)
    ensures |MandatoryDocs(documents, acknowledged + {documents[i].id})| < |MandatoryDocs(documents, acknowledged)|
  {
    var id := documents[i].id;
    var p := (d: Document) => Pending(d, acknowledged);
    var q := (d: Document) => Pending(d, acknowledged + {id});
    if i == 0 {
      FilterMonotone(documents[1..], q, p);
    } else {
      AcknowledgePendingShrinks(documents[1..], acknowledged, i - 1);
    }
  }

  /** The page state that loading and acknowledging change. */
  class DocumentsPageState {
    var documents: seq<Document>
    var acknowledgedDocs: set<string>
    var loading: bool
    var acknowledging: Option<string>

    constructor()
      ensures documents == [] && acknowledgedDocs == {} && loading && acknowledging.None?
    {
      documents := [];
      acknowledgedDocs := {};
      loading := true;
      acknowledging := None;
    }

    /** `fetchData`: the documents (none when the query gives nothing), and the
        user's acknowledgements when there is a user; without one the set is
        kept. */
    method Load(user: Option<string>, documentsData: Option<seq<Document>>, ackData: Option<seq<string>>)
      modifies this
      ensures documents == documentsData.GetOr([])
      ensures user.None? ==> acknowledgedDocs == old(acknowledgedDocs)
      ensures user.Some? ==>
        acknowledgedDocs == (if ackData.Some? then set i | 0 <= i < |ackData.value| :: ackData.value[i] else {})
      ensures !loading && acknowledging == old(acknowledging)
    {
      loading := true;
      documents := documentsData.GetOr([]);
      if user.Some? {
        acknowledgedDocs := if ackData.Some? then set i | 0 <= i < |ackData.value| :: ackData.value[i] else {};
      }
      loading := false;
    }

    /** The start of `handleAcknowledge`: the document is marked as in progress. */
    method BeginAcknowledge(documentId: string)
      modifies this
      ensures acknowledging == Some(documentId)
      ensures documents == old(documents) && acknowledgedDocs == old(acknowledgedDocs) && loading == old(loading)
    {
      acknowledging := Some(documentId);
    }

    /** The rest of `handleAcknowledge`: with a user the receipt is inserted and,
        when that succeeds, the id joins the set; the in-progress mark is cleared
        whatever happened. */
    method SettleAcknowledge(documentId: string, user: Option<string>, insertFails: bool)
      returns (receipt: Option<Acknowledgement>)
      modifies this
      ensures user.None? <==> receipt.None?
      ensures user.Some? ==> receipt == Some(Acknowledgement(documentId, user.value))
      ensures acknowledgedDocs ==
        if user.Some? && !insertFails then old(acknowledgedDocs) + {documentId} else old(acknowledgedDocs)
      ensures old(acknowledgedDocs) <= acknowledgedDocs
      ensures acknowledging.None?
      ensures documents == old(documents) && loading == old(loading)
    {
      if user.None? {
        acknowledging := None;
        return None;
      }
      receipt := Some(Acknowledgement(documentId, user.value));
      if !insertFails {
        acknowledgedDocs := acknowledgedDocs + {documentId};
      }
      acknowledging := None;
    }

    /** `handleAcknowledge` as a whole. */
    method HandleAcknowledge(documentId: string, user: Option<string>, insertFails: bool)
      returns (receipt: Option<Acknowledgement>)
      modifies this
      ensures user.Some? ==> receipt == Some(Acknowledgement(documentId, user.value))
      ensures user.None? ==> receipt.None?
      ensures user.None? || insertFails ==> acknowledgedDocs == old(acknowledgedDocs)
      ensures user.Some? && !insertFails ==>
        acknowledgedDocs == old(acknowledgedDocs) + {documentId} &&
        forall i :: 0 <= i < |MandatoryDocs(documents, acknowledgedDocs)| ==>
          MandatoryDocs(documents, acknowledgedDocs)[i].id != documentId
      ensures old(acknowledgedDocs) <= acknowledgedDocs
      ensures acknowledging.None?
      ensures documents == old(documents) && loading == old(loading)
    {
      BeginAcknowledge(documentId);
      receipt := SettleAcknowledge(documentId, user, insertFails);
    }
  }
}
