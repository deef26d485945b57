/** The inspection store: the single mutable inspection document shared
    by the screens, with its setter and its reset. Each call of a setter
    publishes a new version to the screens that read the store. */
module InspectionContext {
  import opened Wrappers
  import opened Document

  /** What `setInspectionData` accepts: a replacement value, or an updater
      applied to the previous value. */
  datatype Update = Replace(doc: Document) | Apply(updater: Document -> Document)

  /** The document an update leaves behind. */
  function Applied(u: Update, previous: Document): (d: Document)
    ensures u.Replace? ==> d == u.doc
    ensures u.Apply? ==> d == u.updater(previous)
  {
    match u
    case Replace(doc) => doc
    case Apply(f) => f(previous)
  }

  /** `InspectionProvider`. */
  class InspectionStore {
    /** `inspectionData`. */
    var data: Document
    /** How many new document values have been published. */
    var version: nat

    /** The provider starts with the empty record. */
    constructor ()
      ensures data == Empty && version == 0
    {
      data := Empty;
      version := 0;
    }

    /** `setInspectionData`. */
    method SetInspectionData(u: Update)
      modifies this
      ensures data == Applied(u, old(data))
      ensures version == old(version) + 1
    {
      data := Applied(u, data);
      version := version + 1;
    }

    /** `clearInspectionData`: back to the empty record, whatever was held. */
    method ClearInspectionData()
      modifies this
      ensures data == Empty
      ensures version == old(version) + 1
    {
      data := Empty;
      version := version + 1;
    }
  }

  const MissingInspectionProvider := "useInspectionContext must be used within an InspectionProvider"

  /** `useInspectionContext`: the nearest provider, or an error when the
      component is not inside one. */
  function UseInspectionContext(provider: Option<InspectionStore>): (r: Result<InspectionStore, string>)
    ensures r.Failure? <==> provider.None?
    ensures r.Success? ==> r.value == provider.value
    ensures r.Failure? ==> r.error == MissingInspectionProvider
  {
    match provider
    case Some(store) => Success(store)
    case None => Failure(MissingInspectionProvider)
  }
}
