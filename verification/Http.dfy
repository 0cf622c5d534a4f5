/** What a probe learns about a resource, and how validators tell its versions apart. */
module Http {
  import opened Wrappers
  import opened State

  type Byte = b: int | 0 <= b < 256 witness 0

  // One version of the remote resource: its content and the validators it is served with.
  datatype Resource = Resource(bytes: seq<Byte>, etag: Option<string>, lastModified: Option<string>)

  function IfRangeValidator(r: Resource): Option<string> {
    if r.etag.Some? && !IsWeak(r.etag.value) then r.etag else r.lastModified
  }

  // RFC 9110 section 13.1.5: an entity-tag has a double quote among its first three characters.
  predicate IsEntityTag(v: string) {
    '\"' in v[..Min(3, |v|)]
  }

  /** RFC 9110 section 13.1.5: a server may answer 206 only when this holds. */
  predicate Honours(ifRange: Option<string>, r: Resource) {
    match ifRange
    case None => true
    case Some(v) =>
      if IsEntityTag(v) then r.etag == Some(v) && !IsWeak(v) else r.lastModified == Some(v)
  }

  // The state carries this version's size and validators.
  ghost predicate SavedBy(r: Resource, st: DownloadState) {
    st.fileSize == |r.bytes| && st.etag == r.etag && st.lastModified == r.lastModified
  }

  // The test a new run makes before it resumes.
  predicate Resumable(st: DownloadState, r: Resource) {
    st.fileSize == |r.bytes| && MatchesResource(st, r.etag, r.lastModified)
  }

  function Identity(r: Resource): DownloadState {
    DownloadState(STATE_FILE_VERSION, "", |r.bytes|, r.etag, r.lastModified, [])
  }

  /** The validators of an older version neither pass for those of a newer one on
      resume nor are honoured by it. */
  ghost predicate Identifies(versions: seq<Resource>) {
    forall i, j | 0 <= i < j < |versions| ::
      && !Resumable(Identity(versions[i]), versions[j])
      && !Honours(IfRangeValidator(versions[i]), versions[j])
  }

  lemma SavedStateIsStale(versions: seq<Resource>, i: nat, j: nat, st: DownloadState)
    requires Identifies(versions) && i < j < |versions| && SavedBy(versions[i], st)
    ensures !Resumable(st, versions[j])
  {
    assert Resumable(st, versions[j]) == Resumable(Identity(versions[i]), versions[j]);
  }

  // What an RFC-conforming server serves: a tag is quoted, and a date has no quotes.
  ghost predicate HasDate(r: Resource) {
    r.lastModified.Some? && '\"' !in r.lastModified.value
  }

  ghost predicate NoStrongTag(r: Resource) {
    r.etag.Some? ==> WeakTag(r.etag.value)
  }

  lemma DateIsNoTag(v: string)
    requires '\"' !in v
    ensures !IsEntityTag(v)
  {
  }

  /** Without strong tags, dates that never recur identify the versions, whatever weak tags
      are served with them. */
  lemma DistinctDatesIdentify(versions: seq<Resource>)
    requires forall i | 0 <= i < |versions| :: NoStrongTag(versions[i]) && HasDate(versions[i])
    requires forall i, j | 0 <= i < j < |versions| :: versions[i].lastModified != versions[j].lastModified
    ensures Identifies(versions)
  {
    forall i, j | 0 <= i < j < |versions|
      ensures !Resumable(Identity(versions[i]), versions[j])
      ensures !Honours(IfRangeValidator(versions[i]), versions[j])
    {
      var a, b := versions[i], versions[j];
      assert NoStrongTag(a) && HasDate(a) && HasDate(b);
      ResumeDecision(Identity(a), b.etag, b.lastModified);
      ValidatorIsDate(a);
      DateIsNoTag(a.lastModified.value);
    }
  }

  lemma ValidatorIsDate(r: Resource)
    requires NoStrongTag(r)
    ensures IfRangeValidator(r) == r.lastModified
  {
    if r.etag.Some? {
      WeakIsPrefixed(r.etag.value);
    }
  }

  /** The validator sent is one the same version honours: its strong tag, else its date; so an
      unchanged resource can always be resumed. */
  lemma OwnValidatorIsHonoured(r: Resource)
    requires HasStrongTag(r) || (NoStrongTag(r) && (r.lastModified.Some? ==> HasDate(r)))
    ensures Honours(IfRangeValidator(r), r)
    ensures Resumable(Identity(r), r)
  {
    if HasStrongTag(r) {
      var tag := r.etag.value;
      assert tag[..Min(3, |tag|)][0] == '\"';
    } else {
      ValidatorIsDate(r);
      if r.lastModified.Some? {
        DateIsNoTag(r.lastModified.value);
      }
    }
  }

  ghost predicate HasStrongTag(r: Resource) {
    r.etag.Some? && |r.etag.value| > 0 && r.etag.value[0] == '\"'
  }

  /** Strong entity-tags that never recur identify the versions. */
  lemma DistinctStrongTagsIdentify(versions: seq<Resource>)
    requires forall i | 0 <= i < |versions| :: HasStrongTag(versions[i])
    requires forall i, j | 0 <= i < j < |versions| :: versions[i].etag != versions[j].etag
    ensures Identifies(versions)
  {
    forall i, j | 0 <= i < j < |versions|
      ensures !Resumable(Identity(versions[i]), versions[j])
      ensures !Honours(IfRangeValidator(versions[i]), versions[j])
    {
      var tag := versions[i].etag.value;
      assert HasStrongTag(versions[i]) && HasStrongTag(versions[j]);
      assert tag[..Min(3, |tag|)][0] == '\"';
    }
  }
}
