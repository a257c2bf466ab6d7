/** What a draft must say to be finished, and what the finished profile says, written out. */
module ProfileMeaning {

  import opened JsonPointers
  import opened ProfileDraft
  import opened Wrappers

  /** The members of a draft that are its own. */
  datatype Draft = Draft(requirements: Json, payload: Members, machine: Members, postprocessor: Members)

  function DraftJson(review: Review, d: Draft): Json {
    Object(map[
      "schema_version" := Str("custombuild.production-machine-profile-draft.v1"),
      "deployable" := Bool(false),
      "design_review_sha256" := Str(review.digest),
      "requirements" := d.requirements,
      "payload" := Object(d.payload)])
  }

  ghost predicate NoDeeperThan32(v: Json) {
    forall tokens :: Walk(v, tokens).Some? ==> |tokens| <= 32
  }

  ghost predicate NothingUnresolved(v: Json) {
    forall tokens :: Walk(v, tokens) != Some(Object(map["$unresolved" := Str("WORKSHOP_INPUT_REQUIRED")]))
  }

  predicate HasBothParts(payload: Members, machine: Members, postprocessor: Members) {
    && "machine" in payload && payload["machine"] == Object(machine)
    && "postprocessor_profile" in payload && payload["postprocessor_profile"] == Object(postprocessor)
  }

  ghost predicate IsDraft(review: Review, v: Json, d: Draft) {
    && v == DraftJson(review, d) && NoDeeperThan32(v)
    && review.requirementsMatch(Some(d.requirements))
    && NothingUnresolved(Object(d.payload))
    && HasBothParts(d.payload, d.machine, d.postprocessor)
    && "postprocessor_profile_sha256" in d.machine
    && d.machine["postprocessor_profile_sha256"] == Object(map["$computed" := Str("POSTPROCESSOR_CONFIG_SHA256")])
  }

  lemma FinishableIsDraft(review: Review, v: Json) returns (d: Draft)
    requires Finishable(review, v)
    ensures IsDraft(review, v, d)
  {
    var payload := v.members["payload"].members;
    d := Draft(v.members["requirements"], payload, payload["machine"].members, payload["postprocessor_profile"].members);
    assert v.members == DraftJson(review, d).members;
  }

  lemma DraftFieldsGood(review: Review, d: Draft)
    requires review.requirementsMatch(Some(d.requirements))
    ensures DraftGood(review, DraftJson(review, d).members)
  {
    assert DraftJson(review, d).members.Keys == DRAFT_FIELDS;
  }

  lemma DraftIsFinishable(review: Review, v: Json, d: Draft)
    requires IsDraft(review, v, d)
    ensures Finishable(review, v)
  {
    DraftFieldsGood(review, d);
    assert v.members["payload"] == Object(d.payload);
  }

  /** A draft can be finished exactly when it has these five members and no others, is no deeper than
      32, has no unresolved fact in its payload, and leaves the one digest to be computed. */
  lemma FinishableIff(review: Review, v: Json)
    ensures Finishable(review, v) <==> exists d :: IsDraft(review, v, d)
  {
    if Finishable(review, v) {
      var d := FinishableIsDraft(review, v);
    }
    if d :| IsDraft(review, v, d) {
      DraftIsFinishable(review, v, d);
    }
  }

  /** The payload with the digest of its postprocessor in place. */
  function FilledPayload(codec: Codec, d: Draft, postprocessor: Bytes): Json {
    Object(d.payload["machine" :=
      Object(d.machine["postprocessor_profile_sha256" := Str(codec.digest(postprocessor))])])
  }

  function ProfileJson(codec: Codec, d: Draft, postprocessor: Bytes, payload: Bytes): Json {
    Object(map[
      "schema_version" := Str("custombuild.production-machine-profile.v1"),
      "payload_sha256" := Str(codec.digest(payload)),
      "payload" := FilledPayload(codec, d, postprocessor)])
  }

  ghost predicate IsProfile(codec: Codec, d: Draft, profile: Bytes) {
    exists postprocessor, payload ::
      && codec.encode(Object(d.postprocessor)) == Some(postprocessor)
      && codec.encode(FilledPayload(codec, d, postprocessor)) == Some(payload)
      && codec.encode(ProfileJson(codec, d, postprocessor, payload)) == Some(profile)
  }

  lemma FilledIs(codec: Codec, d: Draft, postprocessor: Bytes)
    requires HasBothParts(d.payload, d.machine, d.postprocessor)
    ensures Filled(Object(d.payload), codec.digest(postprocessor)) == FilledPayload(codec, d, postprocessor)
  {
  }

  lemma DocumentIs(codec: Codec, d: Draft, postprocessor: Bytes, payload: Bytes)
    ensures Document(FilledPayload(codec, d, postprocessor), codec.digest(payload)) ==
            ProfileJson(codec, d, postprocessor, payload)
  {
  }

  /** The finished bytes are the canonical text of the profile: the draft's payload, its postprocessor's
      digest filled in, under the digest of the whole. */
  lemma CompletesIff(codec: Codec, review: Review, v: Json, d: Draft, profile: Bytes)
    requires IsDraft(review, v, d)
    ensures Completes(codec, v, profile) <==> IsProfile(codec, d, profile)
  {
    var post := codec.encode(Object(d.postprocessor));
    assert v.members["payload"] == Object(d.payload);
    if post.Some? {
      FilledIs(codec, d, post.value);
      var whole := codec.encode(FilledPayload(codec, d, post.value));
      if whole.Some? {
        DocumentIs(codec, d, post.value, whole.value);
      }
    }
  }

  /** The bytes of a profile are intact exactly when they are its canonical text and both digests in it
      are those of what they stand for. */
  lemma IntactIff(codec: Codec, v: Json, profile: Bytes, payload: Members, machine: Members, postprocessor: Members)
    requires v.Object? && "payload" in v.members && v.members["payload"] == Object(payload)
    requires HasBothParts(payload, machine, postprocessor)
    ensures Intact(codec, v, profile) <==>
              && codec.encode(v) == Some(profile)
              && "payload_sha256" in v.members && "postprocessor_profile_sha256" in machine
              && (exists bytes :: codec.encode(Object(payload)) == Some(bytes)
                                  && v.members["payload_sha256"] == Str(codec.digest(bytes)))
              && (exists bytes :: codec.encode(Object(postprocessor)) == Some(bytes)
                                  && machine["postprocessor_profile_sha256"] == Str(codec.digest(bytes)))
  {
  }

  /** The parts of a profile. */
  datatype Parts = Parts(payload: Members, machine: Members, postprocessor: Members)

  /** The canonical text of an object whose payload has both parts, with the right digest over the
      payload and, in the machine, over the postprocessor. */
  ghost predicate SaysProfile(codec: Codec, v: Json, profile: Bytes, p: Parts) {
    && v.Object? && "payload" in v.members && v.members["payload"] == Object(p.payload)
    && HasBothParts(p.payload, p.machine, p.postprocessor)
    && codec.encode(v) == Some(profile)
    && "payload_sha256" in v.members && "postprocessor_profile_sha256" in p.machine
    && (exists bytes :: codec.encode(Object(p.payload)) == Some(bytes)
                        && v.members["payload_sha256"] == Str(codec.digest(bytes)))
    && (exists bytes :: codec.encode(Object(p.postprocessor)) == Some(bytes)
                        && p.machine["postprocessor_profile_sha256"] == Str(codec.digest(bytes)))
  }

  lemma IntactSays(codec: Codec, v: Json, profile: Bytes)
    ensures (v.Object? && PAYLOAD in v.members && HasParts(v.members[PAYLOAD]) && Intact(codec, v, profile)) <==>
            exists p :: SaysProfile(codec, v, profile, p)
  {
    if v.Object? && PAYLOAD in v.members && HasParts(v.members[PAYLOAD]) {
      var payload := v.members["payload"].members;
      var p := Parts(payload, payload["machine"].members, payload["postprocessor_profile"].members);
      IntactIff(codec, v, profile, p.payload, p.machine, p.postprocessor);
      assert Intact(codec, v, profile) ==> SaysProfile(codec, v, profile, p);
    }
    forall p | SaysProfile(codec, v, profile, p)
      ensures v.Object? && PAYLOAD in v.members && HasParts(v.members[PAYLOAD]) && Intact(codec, v, profile)
    {
      IntactIff(codec, v, profile, p.payload, p.machine, p.postprocessor);
    }
  }

  /** The condition under which validation finds nothing, in full: such a profile, no deeper than 32,
      of the closed shape, bound to the design review and executable. */
  lemma NoFindingIff(codec: Codec, review: Review, profile: Bytes, v: Json)
    ensures Shallow(v) && Shaped(review, v) && Intact(codec, v, profile) && review.bound(v) && review.executable(profile) <==>
              && NoDeeperThan32(v) && review.shaped(v)
              && (exists p :: SaysProfile(codec, v, profile, p))
              && review.bound(v) && review.executable(profile)
  {
    IntactSays(codec, v, profile);
  }

  /** What the design review decides about finished bytes. */
  lemma ApprovedIff(codec: Codec, review: Review, profile: Bytes, v: Json)
    requires RightBytes(codec, profile) && codec.decode(profile) == Some(v)
    ensures Approved(codec, review, profile) <==> review.shaped(v) && review.bound(v) && review.executable(profile)
  {
  }

  /** What is right about finished bytes: they say such a profile, no deeper than 32, in which nothing
      is left unresolved. */
  lemma RightBytesIff(codec: Codec, profile: Bytes)
    ensures RightBytes(codec, profile) <==>
              && codec.decode(profile).Some?
              && var v := codec.decode(profile).value;
                 && NoDeeperThan32(v) && NothingUnresolved(v)
                 && exists p :: SaysProfile(codec, v, profile, p)
  {
    if codec.decode(profile).Some? {
      IntactSays(codec, codec.decode(profile).value, profile);
    }
  }
}
