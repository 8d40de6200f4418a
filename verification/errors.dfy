/** errors: the package's own error type, its four kinds, tags, and the
    classification of errors coming from the database driver. */
module Errors {
  import opened Results
  import Text

  /** ErrorType */
  datatype ErrorType = Internal | NotFound | Conflict | BadRequest

  /** The text of each ErrorType constant. */
  function TypeText(t: ErrorType): string
  {
    match t
    case Internal => "Internal error"
    case NotFound => "Entity not found"
    case Conflict => "Entity already exists"
    case BadRequest => "Found too many entities"
  }

  /** A tag that can be attached to an error; a tag is identified by the
      allocation that created it. */
  datatype Tag = Tag(id: nat)

  /** The errors flowing through the toolkit: the driver's sentinels
      pg.ErrNoRows and pg.ErrMultiRows, a PostgreSQL error with its code
      (field 'C'), severity (field 'S') and message (field 'M'), an error
      wrapping another one (errors.Unwrap yields `inner`), any other error,
      and an error of this package. */
  datatype GoError =
    | NoRows
    | MultiRows
    | PgError(code: string, severity: string, pgMessage: string)
    | Wrapped(text: string, inner: GoError)
    | Plain(plainText: string)
    | Pkg(e: DbError)

  /** dbError */
  datatype DbError = DbError(
    typ: ErrorType,
    code: string,
    status: string,
    message: string,
    tags: seq<Tag>,
    cause: Option<GoError>)

  /** Error(): the message, which is empty until WithMessage sets it. */
  function ErrorText(e: DbError): string
  {
    e.message
  }

  /** NewInternalError, NewNotFoundError, NewBadRequestError and
      NewConflictError. */
  function NewError(t: ErrorType, cause: Option<GoError>): (r: DbError)
    ensures r.typ == t && r.cause == cause
    ensures r.code == "" && r.status == "" && ErrorText(r) == "" && r.tags == []
  {
    DbError(t, "", "", "", [], cause)
  }

  /** TypeOf */
  predicate TypeOf(e: DbError, t: ErrorType)
  {
    e.typ == t
  }

  /** WithParams */
  function WithParams(e: DbError, code: string, status: string): (r: DbError)
    ensures r.code == code && r.status == status
    ensures r.typ == e.typ && r.message == e.message && r.tags == e.tags && r.cause == e.cause
  {
    e.(code := code, status := status)
  }

  /** WithMessage */
  function WithMessage(e: DbError, msg: string): (r: DbError)
    ensures ErrorText(r) == msg
    ensures r.typ == e.typ && r.code == e.code && r.status == e.status && r.tags == e.tags && r.cause == e.cause
  {
    e.(message := msg)
  }

  /** WithTag: appends the tag, keeping the ones already attached. */
  function WithTag(e: DbError, t: Tag): (r: DbError)
    ensures |r.tags| == |e.tags| + 1 && r.tags[..|e.tags|] == e.tags && r.tags[|e.tags|] == t
    ensures r.typ == e.typ && r.code == e.code && r.status == e.status && r.message == e.message && r.cause == e.cause
  {
    e.(tags := e.tags + [t])
  }

  /** HasTag: a linear search of the attached tags. */
  method HasTag(e: DbError, t: Tag) returns (found: bool)
    ensures found <==> t in e.tags
  {
    var i := 0;
    while i < |e.tags|
      invariant 0 <= i <= |e.tags|
      invariant forall j :: 0 <= j < i ==> e.tags[j] != t
    {
      if e.tags[i] == t {
        return true;
      }
      i := i + 1;
    }
    return false;
  }

  /** A tag attached by WithTag is found by HasTag, and tagging with one
      tag does not make another tag appear. */
  lemma WithTagHasTag(e: DbError, t: Tag, u: Tag)
    ensures t in WithTag(e, t).tags
    ensures u != t ==> (u in WithTag(e, t).tags <==> u in e.tags)
  {
    assert WithTag(e, t).tags == e.tags + [t];
  }

  /** IsInternal: an error that is not of this package (including nil)
      counts as internal. The check is a type assertion, so wrapping an
      error of this package hides its kind. */
  predicate IsInternal(err: Option<GoError>)
  {
    !(err.Some? && err.value.Pkg?) || TypeOf(err.value.e, Internal)
  }

  /** IsNotFound */
  predicate IsNotFound(err: Option<GoError>)
  {
    err.Some? && err.value.Pkg? && TypeOf(err.value.e, NotFound)
  }

  /** IsBadRequest */
  predicate IsBadRequest(err: Option<GoError>)
  {
    err.Some? && err.value.Pkg? && TypeOf(err.value.e, BadRequest)
  }

  /** IsConflict */
  predicate IsConflict(err: Option<GoError>)
  {
    err.Some? && err.value.Pkg? && TypeOf(err.value.e, Conflict)
  }

  /** Exactly one of the four classifiers holds of any error, nil included. */
  lemma ClassifiersPartition(err: Option<GoError>)
    ensures IsInternal(err) || IsNotFound(err) || IsBadRequest(err) || IsConflict(err)
    ensures !(IsInternal(err) && IsNotFound(err)) && !(IsInternal(err) && IsBadRequest(err))
    ensures !(IsInternal(err) && IsConflict(err)) && !(IsNotFound(err) && IsBadRequest(err))
    ensures !(IsNotFound(err) && IsConflict(err)) && !(IsBadRequest(err) && IsConflict(err))
    ensures IsNotFound(err) <==> err.Some? && err.value.Pkg? && err.value.e.typ == NotFound
  {
  }

  /** Wrapping an error of this package makes it internal to the
      classifiers, whatever its kind. */
  lemma WrappingHidesKind(text: string, e: DbError)
    ensures IsInternal(Some(Wrapped(text, Pkg(e))))
    ensures !IsNotFound(Some(Wrapped(text, Pkg(e)))) && !IsConflict(Some(Wrapped(text, Pkg(e))))
    ensures IsNotFound(Some(Pkg(e))) <==> e.typ == NotFound
  {
  }

  /** NewTag: every call allocates a tag distinct from all earlier ones;
      `next` stands for the allocator's state. */
  function NewTag(next: nat): (r: (Tag, nat))
    ensures r.1 > next && r.0.id == next
    ensures forall k: nat :: k >= r.1 ==> Tag(k) != r.0
  {
    (Tag(next), next + 1)
  }

  /** Tag.IsTagged with tag identity: the error is of this package and
      carries `t`. */
  predicate IsTagged(t: Tag, err: Option<GoError>)
  {
    err.Some? && err.value.Pkg? && t in err.value.e.tags
  }

  /** With identity, a tag is found on an error exactly when it was
      attached to it. */
  lemma IsTaggedByIdentity(e: DbError, t: Tag, u: Tag)
    ensures IsTagged(u, Some(Pkg(WithTag(e, t)))) <==> u == t || u in e.tags
    ensures !IsTagged(u, Some(Pkg(NewError(e.typ, e.cause))))
  {
    WithTagHasTag(e, t, u);
  }

  /** Tag.IsTagged as written. Tag is an empty struct, so every tag is a
      zero-size allocation, and the gc toolchain gives all of them one and
      the same address; IsTagged moreover looks up the address of a copy of
      the receiver. The pointer comparison in HasTag therefore matches any
      attached tag. */
  predicate IsTaggedAsWritten(t: Tag, err: Option<GoError>)
  {
    err.Some? && err.value.Pkg? && |err.value.e.tags| > 0
  }

  /** An error tagged with one tag is reported as tagged with any other. */
  lemma TagsIndistinguishable()
    ensures var (a, n1) := NewTag(0);
      var (b, _) := NewTag(n1);
      var err := Some(Pkg(WithTag(NewError(Internal, None), a)));
      a != b && IsTaggedAsWritten(b, err) && !IsTagged(b, err) && IsTagged(a, err)
  {
  }

  /** With identity the two agree on errors carrying only the tag asked
      about, which is the one use inside the toolkit (Walk's last-page
      check). */
  lemma IsTaggedAgreesOnSoleTag(t: Tag, e: DbError)
    requires forall i :: 0 <= i < |e.tags| ==> e.tags[i] == t
    ensures IsTagged(t, Some(Pkg(e))) <==> IsTaggedAsWritten(t, Some(Pkg(e)))
  {
    if |e.tags| > 0 { assert e.tags[0] == t; }
  }
}

/** errors/converter.go: mapping driver errors to the package's kinds. */
module Converter {
  import opened Results
  import opened Errors
  import Text

  const DuplicateMarker := "duplicate key value"

  /** The error Convert classifies: the first error along the Unwrap chain
      that is a sentinel, a PostgreSQL error, or that wraps nothing. */
  function Core(err: GoError): (r: GoError)
    ensures !r.Wrapped?
  {
    if err.Wrapped? then Core(err.inner) else err
  }

  /** The convert helper for a PostgreSQL error: a conflict when the message
      reports a duplicate key, otherwise internal; code, status and message
      are copied from the driver's fields. */
  function ConvertPg(err: GoError): (r: DbError)
    requires err.PgError?
    ensures r.typ == (if Text.Contains(err.pgMessage, DuplicateMarker) then Conflict else Internal)
    ensures r.code == err.code && r.status == err.severity && ErrorText(r) == err.pgMessage
    ensures r.tags == [] && r.cause == Some(err)
  {
    var base := if Text.Contains(err.pgMessage, DuplicateMarker)
      then NewError(Conflict, Some(err)) else NewError(Internal, Some(err));
    WithMessage(WithParams(base, err.code, err.severity), err.pgMessage)
  }

  /** Convert */
  function Convert(err: GoError): (r: DbError)
  {
    match err
    case NoRows => NewError(NotFound, Some(err))
    case MultiRows => NewError(BadRequest, Some(err))
    case PgError(_, _, _) => ConvertPg(err)
    case Wrapped(_, inner) => Convert(inner)
    case Plain(_) => NewError(Internal, Some(err))
    case Pkg(_) => NewError(Internal, Some(err))
  }

  /** The kind Convert assigns, as a table over the classified error. */
  function ExpectedType(core: GoError): ErrorType
  {
    match core
    case NoRows => NotFound
    case MultiRows => BadRequest
    case PgError(_, _, m) => if Text.Contains(m, DuplicateMarker) then Conflict else Internal
    case _ => Internal
  }

  /** Convert looks through any number of wrappers: the result depends only
      on the classified error, it carries that error as its cause, has the
      kind the table gives, and has no tags; only a PostgreSQL error brings
      a message. */
  lemma {:induction false} ConvertClassifies(err: GoError)
    ensures Convert(err) == Convert(Core(err))
    ensures Convert(err).typ == ExpectedType(Core(err))
    ensures Convert(err).cause == Some(Core(err))
    ensures Convert(err).tags == []
    ensures ErrorText(Convert(err)) == (if Core(err).PgError? then Core(err).pgMessage else "")
  {
    if err.Wrapped? {
      ConvertClassifies(err.inner);
    }
  }

  /** The classifiers see exactly the kind Convert chose. */
  lemma ConvertedClassifiers(err: GoError)
    ensures IsNotFound(Some(Pkg(Convert(err)))) <==> Core(err) == NoRows
    ensures IsBadRequest(Some(Pkg(Convert(err)))) <==> Core(err) == MultiRows
    ensures IsConflict(Some(Pkg(Convert(err)))) <==>
      Core(err).PgError? && Text.Contains(Core(err).pgMessage, DuplicateMarker)
  {
    ConvertClassifies(err);
  }

  /** Converting an already converted error loses its kind: errors of this
      package do not unwrap, so they fall through to internal. */
  lemma ReconvertIsInternal(err: GoError)
    ensures Convert(Pkg(Convert(err))).typ == Internal
  {
  }
}
