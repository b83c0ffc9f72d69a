/** Which audio element the component attaches to (`prepareElements`) and
    whether play/pause handlers get installed (`initAudioEvents`). */
module Elements {

  datatype Option<T> = None | Some(value: T)

  /** The element the component listens to, from the `audioId` prop (the
      empty string is absent, as JavaScript treats it as false), the
      `audioEle` prop, and a lookup by id standing for
      `document.getElementById`, which may find nothing. */
  function ResolveAudio<E>(audioId: string, audioEle: Option<E>, lookup: string -> Option<E>): (r: Option<E>)
    ensures audioId == "" && audioEle.None? ==> r.None?
    ensures r.Some? ==> r == lookup(audioId) || r == audioEle
    ensures audioId == "" ==> r == audioEle
  {
    if audioId == "" && audioEle.None? then None
    else if audioId != "" then lookup(audioId)
    else audioEle
  }

  /** Play and pause handlers are installed exactly when an element resolved. */
  predicate HandlersInstalled<E>(audioId: string, audioEle: Option<E>, lookup: string -> Option<E>) {
    ResolveAudio(audioId, audioEle, lookup).Some?
  }

  /** An `audioId` wins over a directly passed element: with an id, the
      passed element makes no difference at all. */
  lemma IdTakesPrecedence<E>(audioId: string, e1: Option<E>, e2: Option<E>, lookup: string -> Option<E>)
    requires audioId != ""
    ensures ResolveAudio(audioId, e1, lookup) == ResolveAudio(audioId, e2, lookup) == lookup(audioId)
  {
  }

  /** Handlers are installed iff the id is given and found, or no id is
      given and an element is passed. With neither, nothing is installed. */
  lemma HandlersInstalledIff<E>(audioId: string, audioEle: Option<E>, lookup: string -> Option<E>)
    ensures HandlersInstalled(audioId, audioEle, lookup)
      <==> (audioId != "" && lookup(audioId).Some?) || (audioId == "" && audioEle.Some?)
  {
  }
}
