/** The lenient whitelist in front of the strict sanitizer (src/triggerOrderViews.ts): what a bridge that passes legs
    through the one changes for a harness that validates them with the other. */
module LegBridge {
  import opened Results
  import opened Redaction
  import opened LegSanitizer

  // ---- Accepted legs that the whitelist leaves alone ----

  predicate ScalarAt(f: map<string, Json>, key: string) {
    key in f ==> IsScalar(f[key])
  }

  lemma IdentityScalars(f: map<string, Json>)
    requires IdentityAccepted(f)
    ensures forall i | 0 <= i < 6 :: ScalarAt(f, VIEW_FIELDS[i])
  {
    assert ScalarAt(f, "id") && ScalarAt(f, "mango_account") && ScalarAt(f, "account_owner");
    assert ScalarAt(f, "market_index") && ScalarAt(f, "client_order_id") && ScalarAt(f, "kind");
  }

  lemma PriceScalars(f: map<string, Json>)
    requires PricesAccepted(f)
    ensures forall i | 6 <= i < 12 :: ScalarAt(f, VIEW_FIELDS[i])
  {
    assert ScalarAt(f, "direction") && ScalarAt(f, "side") && ScalarAt(f, "trigger_price_lots");
    assert ScalarAt(f, "limit_price_lots") && ScalarAt(f, "max_base_lots") && ScalarAt(f, "reduce_only");
  }

  lemma StateScalars(f: map<string, Json>)
    requires StateAccepted(f)
    ensures forall i | 12 <= i < 17 :: ScalarAt(f, VIEW_FIELDS[i])
  {
    assert ScalarAt(f, "oco_group") && ScalarAt(f, "expiry_ts") && ScalarAt(f, "state");
    assert ScalarAt(f, "state_reason") && ScalarAt(f, "wait_reason");
  }

  lemma TimeScalars(f: map<string, Json>)
    requires TimesAccepted(f)
    ensures forall i | 17 <= i < 20 :: ScalarAt(f, VIEW_FIELDS[i])
  {
    assert ScalarAt(f, "resign_required") && ScalarAt(f, "created_ms") && ScalarAt(f, "updated_ms");
  }

  predicate DetailAt(f: map<string, Json>, key: string, names: seq<string>) {
    key in f ==> IsDetail(f[key], names)
  }

  predicate ScalarsBesideDetails(f: map<string, Json>) {
    forall k | k in f && k in VIEW_FIELDS && k != "armed" && k != "last_fire" :: IsScalar(f[k])
  }

  lemma AcceptedScalars(f: map<string, Json>)
    requires IdentityAccepted(f) && PricesAccepted(f) && StateAccepted(f) && TimesAccepted(f)
    ensures ScalarsBesideDetails(f)
  {
    IdentityScalars(f);
    PriceScalars(f);
    StateScalars(f);
    TimeScalars(f);
    ScalarsByPlace(f);
  }

  lemma ScalarsByPlace(f: map<string, Json>)
    requires forall i | 0 <= i < 20 :: ScalarAt(f, VIEW_FIELDS[i])
    ensures ScalarsBesideDetails(f)
  {
    DetailNames();
    forall k | k in f && k in VIEW_FIELDS && k != "armed" && k != "last_fire" ensures IsScalar(f[k]) {
      var i :| 0 <= i < |VIEW_FIELDS| && VIEW_FIELDS[i] == k;
      assert ScalarAt(f, VIEW_FIELDS[i]);
    }
  }

  lemma LegViewParts(f: map<string, Json>)
    requires ScalarsBesideDetails(f)
    ensures IsLegView(Obj(f)) <==>
              && (forall k | k in f :: k in VIEW_FIELDS)
              && DetailAt(f, "armed", ARMED_FIELDS) && DetailAt(f, "last_fire", LAST_FIRE_FIELDS)
  {
    DetailNames();
  }

  /** On a leg the strict sanitizer accepts, the whitelist is the identity exactly when the leg has no key outside the
      view and its two details are null or objects of their own scalars. */
  lemma AcceptedLegFixedIff(raw: Json)
    requires Sanitize(raw).Some?
    ensures Whitelist(raw) == raw <==>
              && (forall k | k in raw.fields :: k in VIEW_FIELDS)
              && DetailAt(raw.fields, "armed", ARMED_FIELDS) && DetailAt(raw.fields, "last_fire", LAST_FIRE_FIELDS)
  {
    AcceptedScalars(raw.fields);
    LegViewParts(raw.fields);
    WhitelistFixes(raw);
  }

  lemma DetailNames()
    ensures |VIEW_FIELDS| == 22 && VIEW_FIELDS[20] == "armed" && VIEW_FIELDS[21] == "last_fire"
  {
  }

  lemma ExtraKeyUnseen(f: map<string, Json>, key: string, x: Json)
    requires key !in VIEW_FIELDS
    ensures Whitelist(Obj(f[key := x])) == Whitelist(Obj(f)) && Whitelist(Obj(f[key := x])) != Obj(f[key := x])
  {
    assert Kept(f[key := x], VIEW_FIELDS) == Kept(f, VIEW_FIELDS);
    assert key !in Kept(f, VIEW_FIELDS);
  }

  /** Any well-formed leg with one key more is accepted all the same, and the whitelist changes it. */
  lemma ExtraKeyIsDropped(v: View)
    requires WellFormed(v)
    ensures var raw := Obj(ViewFields(v)["fee" := Null]);
            Sanitize(raw) == Some(v) && Whitelist(raw) == Obj(ViewFields(v)) && Whitelist(raw) != raw
  {
    ExtraKeyCarried(v);
    CarriedSanitizes(ViewFields(v)["fee" := Null], v);
    FeeIsNoViewField();
    ExtraKeyUnseen(ViewFields(v), "fee", Null);
    WhitelistKeepsViews(v);
  }

  lemma FeeIsNoViewField()
    ensures "fee" !in VIEW_FIELDS
  {
  }

  lemma ExtraKeyCarried(v: View)
    ensures Carries(ViewFields(v)["fee" := Null], v)
  {
    var f, g := ViewFields(v), ViewFields(v)["fee" := Null];
    ViewHolds(v);
    FeeIsNoViewField();
    forall i | 0 <= i < |VIEW_FIELDS| ensures At(g, VIEW_FIELDS[i]) == Some(Values(v)[i]) {
      assert VIEW_FIELDS[i] in VIEW_FIELDS && At(f, VIEW_FIELDS[i]) == Some(Values(v)[i]);
    }
    HoldingCarries(g, v);
  }

  // ---- What the whitelist changes for the sanitizer ----

  /** A value that the whitelist drops. */
  predicate Loose(v: Option<Json>) {
    v.Some? && !IsScalar(v.value)
  }

  function Tight(v: Option<Json>): Option<Json> {
    if Loose(v) then None else v
  }

  lemma PickedAt(g: map<string, Json>, names: seq<string>, key: string)
    requires key in names
    ensures At(PickScalars(Obj(g), names).fields, key) == Tight(At(g, key))
  {
  }

  lemma KeptAt(f: map<string, Json>, i: nat)
    requires i < 20
    ensures At(Kept(f, VIEW_FIELDS), VIEW_FIELDS[i]) == Tight(At(f, VIEW_FIELDS[i]))
  {
    NotDetail(i);
  }

  lemma NotDetail(i: nat)
    requires i < 20
    ensures VIEW_FIELDS[i] != "armed" && VIEW_FIELDS[i] != "last_fire"
  {
    ViewKeysDiffer();
    DetailNames();
  }

  /** The scalar fields of the whitelisted leg. */
  ghost predicate Tightened(f: map<string, Json>, w: map<string, Json>) {
    forall i | 0 <= i < 20 :: At(w, VIEW_FIELDS[i]) == Tight(At(f, VIEW_FIELDS[i]))
  }

  lemma KeptIsTightened(f: map<string, Json>)
    ensures Tightened(f, Kept(f, VIEW_FIELDS))
  {
    forall i | 0 <= i < 20 ensures At(Kept(f, VIEW_FIELDS), VIEW_FIELDS[i]) == Tight(At(f, VIEW_FIELDS[i])) {
      KeptAt(f, i);
    }
  }

  /** Acceptable but for a reason that is no string. */
  predicate LooselyStated(f: map<string, Json>) {
    && DecimalString(At(f, "oco_group"), false).Some?
    && DecimalString(At(f, "expiry_ts"), false).Some?
    && TextOf(At(f, "state")).Some? && IsStateName(TextOf(At(f, "state")).value)
    && (Loose(At(f, "state_reason")) || ReasonString(At(f, "state_reason")).Some?)
    && (Loose(At(f, "wait_reason")) || ReasonString(At(f, "wait_reason")).Some?)
  }

  predicate LooseReason(f: map<string, Json>) {
    Loose(At(f, "state_reason")) || Loose(At(f, "wait_reason"))
  }

  lemma TightIdentity(f: map<string, Json>, w: map<string, Json>)
    requires Tightened(f, w)
    ensures IdentityAccepted(w) <==> IdentityAccepted(f)
    ensures IdentityAccepted(f) ==>
              && TextOf(At(w, "id")) == TextOf(At(f, "id"))
              && TextOf(At(w, "mango_account")) == TextOf(At(f, "mango_account"))
              && TextOf(At(w, "account_owner")) == TextOf(At(f, "account_owner"))
              && NonNegativeSafeInteger(At(w, "market_index")) == NonNegativeSafeInteger(At(f, "market_index"))
              && DecimalString(At(w, "client_order_id"), false) == DecimalString(At(f, "client_order_id"), false)
              && TextOf(At(w, "kind")) == TextOf(At(f, "kind"))
  {
    assert At(w, VIEW_FIELDS[0]) == Tight(At(f, VIEW_FIELDS[0]));
    assert At(w, VIEW_FIELDS[1]) == Tight(At(f, VIEW_FIELDS[1]));
    assert At(w, VIEW_FIELDS[2]) == Tight(At(f, VIEW_FIELDS[2]));
    assert At(w, VIEW_FIELDS[3]) == Tight(At(f, VIEW_FIELDS[3]));
    assert At(w, VIEW_FIELDS[4]) == Tight(At(f, VIEW_FIELDS[4]));
    assert At(w, VIEW_FIELDS[5]) == Tight(At(f, VIEW_FIELDS[5]));
  }

  lemma TightPrices(f: map<string, Json>, w: map<string, Json>)
    requires Tightened(f, w)
    ensures PricesAccepted(w) <==> PricesAccepted(f)
    ensures PricesAccepted(f) ==>
              && TextOf(At(w, "direction")) == TextOf(At(f, "direction"))
              && TextOf(At(w, "side")) == TextOf(At(f, "side"))
              && DecimalString(At(w, "trigger_price_lots"), false) == DecimalString(At(f, "trigger_price_lots"), false)
              && DecimalString(At(w, "limit_price_lots"), false) == DecimalString(At(f, "limit_price_lots"), false)
              && DecimalString(At(w, "max_base_lots"), false) == DecimalString(At(f, "max_base_lots"), false)
              && At(w, "reduce_only") == At(f, "reduce_only")
  {
    assert At(w, VIEW_FIELDS[6]) == Tight(At(f, VIEW_FIELDS[6]));
    assert At(w, VIEW_FIELDS[7]) == Tight(At(f, VIEW_FIELDS[7]));
    assert At(w, VIEW_FIELDS[8]) == Tight(At(f, VIEW_FIELDS[8]));
    assert At(w, VIEW_FIELDS[9]) == Tight(At(f, VIEW_FIELDS[9]));
    assert At(w, VIEW_FIELDS[10]) == Tight(At(f, VIEW_FIELDS[10]));
    assert At(w, VIEW_FIELDS[11]) == Tight(At(f, VIEW_FIELDS[11]));
  }

  lemma TightState(f: map<string, Json>, w: map<string, Json>)
    requires Tightened(f, w)
    ensures StateAccepted(w) <==> LooselyStated(f)
    ensures StateAccepted(f) <==> LooselyStated(f) && !LooseReason(f)
    ensures StateAccepted(f) ==>
              && DecimalString(At(w, "oco_group"), false) == DecimalString(At(f, "oco_group"), false)
              && DecimalString(At(w, "expiry_ts"), false) == DecimalString(At(f, "expiry_ts"), false)
              && TextOf(At(w, "state")) == TextOf(At(f, "state"))
              && ReasonString(At(w, "state_reason")) == ReasonString(At(f, "state_reason"))
              && ReasonString(At(w, "wait_reason")) == ReasonString(At(f, "wait_reason"))
  {
    assert At(w, VIEW_FIELDS[12]) == Tight(At(f, VIEW_FIELDS[12]));
    assert At(w, VIEW_FIELDS[13]) == Tight(At(f, VIEW_FIELDS[13]));
    assert At(w, VIEW_FIELDS[14]) == Tight(At(f, VIEW_FIELDS[14]));
    assert At(w, VIEW_FIELDS[15]) == Tight(At(f, VIEW_FIELDS[15]));
    assert At(w, VIEW_FIELDS[16]) == Tight(At(f, VIEW_FIELDS[16]));
  }

  lemma TightTimes(f: map<string, Json>, w: map<string, Json>)
    requires Tightened(f, w)
    ensures TimesAccepted(w) <==> TimesAccepted(f)
    ensures TimesAccepted(f) ==>
              && At(w, "resign_required") == At(f, "resign_required")
              && NonNegativeSafeInteger(At(w, "created_ms")) == NonNegativeSafeInteger(At(f, "created_ms"))
              && NonNegativeSafeInteger(At(w, "updated_ms")) == NonNegativeSafeInteger(At(f, "updated_ms"))
  {
    assert At(w, VIEW_FIELDS[17]) == Tight(At(f, VIEW_FIELDS[17]));
    assert At(w, VIEW_FIELDS[18]) == Tight(At(f, VIEW_FIELDS[18]));
    assert At(w, VIEW_FIELDS[19]) == Tight(At(f, VIEW_FIELDS[19]));
  }

  // ---- The two details ----

  /** A detail as the whitelist passes it on. */
  function Picked(v: Option<Json>, names: seq<string>): Option<Json> {
    if v.Some? then Some(PickScalars(v.value, names)) else None
  }

  lemma DetailsKept(f: map<string, Json>)
    ensures At(Kept(f, VIEW_FIELDS), "armed") == Picked(At(f, "armed"), ARMED_FIELDS)
    ensures At(Kept(f, VIEW_FIELDS), "last_fire") == Picked(At(f, "last_fire"), LAST_FIRE_FIELDS)
  {
    DetailNames();
    ViewKeysDiffer();
  }

  lemma ArmedPicked(v: Option<Json>)
    ensures SanitizeArmed(Picked(v, ARMED_FIELDS)) == SanitizeArmed(v)
  {
    if v.Some? && v.value.Obj? {
      assert ARMED_FIELDS[0] == "slot" && ARMED_FIELDS[1] == "ts_ms" && ARMED_FIELDS[2] == "position_lots";
      PickedAt(v.value.fields, ARMED_FIELDS, "slot");
      PickedAt(v.value.fields, ARMED_FIELDS, "ts_ms");
      PickedAt(v.value.fields, ARMED_FIELDS, "position_lots");
    }
  }

  /** A record of the last fire that is in order but for an outcome or a sequence that is no scalar. */
  predicate LooseFire(v: Option<Json>) {
    && v.Some? && v.value.Obj?
    && var g := v.value.fields;
       var outcome, sequence := At(g, "outcome"), At(g, "sequence");
       && NonNegativeSafeInteger(At(g, "attempt")).Some? && NonNegativeSafeInteger(At(g, "ts_ms")).Some?
       && (Loose(outcome) || ReasonString(outcome).Some?)
       && (Loose(sequence) || Absent(sequence) || DecimalString(sequence, false).Some?)
       && (Loose(outcome) || Loose(sequence))
  }

  lemma FirePicked(v: Option<Json>)
    ensures var picked := SanitizeLastFire(Picked(v, LAST_FIRE_FIELDS));
            && (picked == SanitizeLastFire(v) <==> !LooseFire(v))
            && (LooseFire(v) ==> SanitizeLastFire(v) == None && picked.Some?)
  {
    if v.Some? && v.value.Obj? {
      assert LAST_FIRE_FIELDS[0] == "attempt" && LAST_FIRE_FIELDS[1] == "sequence";
      assert LAST_FIRE_FIELDS[2] == "ts_ms" && LAST_FIRE_FIELDS[3] == "outcome";
      PickedAt(v.value.fields, LAST_FIRE_FIELDS, "attempt");
      PickedAt(v.value.fields, LAST_FIRE_FIELDS, "sequence");
      PickedAt(v.value.fields, LAST_FIRE_FIELDS, "ts_ms");
      PickedAt(v.value.fields, LAST_FIRE_FIELDS, "outcome");
    }
  }

  // ---- The whitelist first, the sanitizer after it ----

  /** Acceptable to the sanitizer but for reasons that are no scalar. */
  predicate LooselyAccepted(f: map<string, Json>) {
    IdentityAccepted(f) && PricesAccepted(f) && LooselyStated(f) && TimesAccepted(f)
  }

  lemma Verdicts(f: map<string, Json>)
    ensures Sanitize(Whitelist(Obj(f))).Some? <==> LooselyAccepted(f)
    ensures Sanitize(Obj(f)).Some? <==> LooselyAccepted(f) && !LooseReason(f)
  {
    var w := Kept(f, VIEW_FIELDS);
    KeptIsTightened(f);
    TightIdentity(f, w);
    TightPrices(f, w);
    TightState(f, w);
    TightTimes(f, w);
  }

  lemma SameButLastFire(f: map<string, Json>)
    requires Sanitize(Obj(f)).Some? && Sanitize(Whitelist(Obj(f))).Some?
    ensures Sanitize(Whitelist(Obj(f))).value
            == Sanitize(Obj(f)).value.(lastFire := SanitizeLastFire(Picked(At(f, "last_fire"), LAST_FIRE_FIELDS)))
  {
    var w := Kept(f, VIEW_FIELDS);
    KeptIsTightened(f);
    TightIdentity(f, w);
    TightPrices(f, w);
    TightState(f, w);
    TightTimes(f, w);
    DetailsKept(f);
    ArmedPicked(At(f, "armed"));
  }

  /** Whitelisting first changes what the sanitizer returns exactly when the leg is otherwise acceptable and a reason is
      no scalar, or the last fire is in order but for an outcome or sequence that is no scalar: those values vanish
      instead of rejecting the leg or the detail. */
  lemma WhitelistFirstDiffersIff(raw: Json)
    ensures Sanitize(Whitelist(raw)) != Sanitize(raw) <==>
              && raw.Obj? && LooselyAccepted(raw.fields)
              && (LooseReason(raw.fields) || LooseFire(At(raw.fields, "last_fire")))
  {
    if raw.Obj? {
      Verdicts(raw.fields);
      if Sanitize(raw).Some? {
        SameButLastFire(raw.fields);
        FirePicked(At(raw.fields, "last_fire"));
      }
    }
  }

  /** A leg the sanitizer accepts it accepts after the whitelist too, with the same view but for a last fire it may
      gain. */
  lemma WhitelistFirstOnlyAdds(raw: Json)
    requires Sanitize(raw).Some?
    ensures Sanitize(Whitelist(raw)).Some?
    ensures var before, after := Sanitize(raw).value, Sanitize(Whitelist(raw)).value;
            && after.(lastFire := None) == before.(lastFire := None)
            && (before.lastFire.Some? ==> after == before)
  {
    Verdicts(raw.fields);
    SameButLastFire(raw.fields);
    FirePicked(At(raw.fields, "last_fire"));
  }
}
