/** What may leave the keeper about a trigger leg: the recursive redactor and the lenient whitelist
    (src/triggerOrderViews.ts). */
module Redaction {
  /** A JSON value. The order of keys is not modelled. */
  datatype Json = Null | Bool(b: bool) | Num(n: real) | Str(s: string) | Arr(items: seq<Json>)
        | Obj(fields: map<string, Json>)

  const FORBIDDEN: set<string> := {"payload_b64", "user_signature_b64", "remaining_accounts", "request"}

  const VIEW_FIELDS: seq<string> := [
    "id", "mango_account", "account_owner", "market_index", "client_order_id", "kind", "direction", "side",
    "trigger_price_lots", "limit_price_lots", "max_base_lots", "reduce_only", "oco_group", "expiry_ts", "state",
    "state_reason", "wait_reason", "resign_required", "created_ms", "updated_ms", "armed", "last_fire"]

  const ARMED_FIELDS: seq<string> := ["slot", "ts_ms", "position_lots"]

  const LAST_FIRE_FIELDS: seq<string> := ["attempt", "sequence", "ts_ms", "outcome"]

  const MAX_REDACT_DEPTH := 12

  predicate Removed(key: string) {
    key in FORBIDDEN || key == "__proto__"
  }

  predicate IsScalar(v: Json) {
    !v.Arr? && !v.Obj?
  }

  // ---- Specification ----

  /** Forbidden keys are dropped at every depth, and what lies below the depth limit is dropped altogether. */
  function Strip(v: Json, depth: nat): Json
    decreases v
  {
    if depth > MAX_REDACT_DEPTH then Null
    else
      match v
      case Arr(items) => Arr(seq(|items|, i requires 0 <= i < |items| => Strip(items[i], depth + 1)))
      case Obj(fields) => Obj(map k | k in fields && !Removed(k) :: Strip(fields[k], depth + 1))
      case _ => v
  }

  function PickScalars(v: Json, fields: seq<string>): Json {
    if !v.Obj? then Null
    else Obj(map k | k in v.fields && k in fields && IsScalar(v.fields[k]) :: v.fields[k])
  }

  /** A leg reduced to the scalar values under the view's keys; Null for anything but an object. */
  function Whitelist(v: Json): Json {
    if !v.Obj? then Null else Obj(Kept(v.fields, VIEW_FIELDS))
  }

  /** What is kept under the given names. */
  function Kept(fields: map<string, Json>, names: seq<string>): map<string, Json> {
    map k | k in fields && k in names && (k == "armed" || k == "last_fire" || IsScalar(fields[k])) ::
      if k == "armed" then PickScalars(fields[k], ARMED_FIELDS)
      else if k == "last_fire" then PickScalars(fields[k], LAST_FIRE_FIELDS)
      else fields[k]
  }

  /** The legs of a list that are objects, each reduced. */
  function WhitelistAll(items: seq<Json>): seq<Json> {
    if items == [] then []
    else
      var last := Whitelist(items[|items| - 1]);
      WhitelistAll(items[..|items| - 1]) + (if last == Null then [] else [last])
  }

  function RedactOrders(m: map<string, Json>): map<string, Json> {
    if "orders" in m && m["orders"].Arr? then m["orders" := Arr(WhitelistAll(m["orders"].items))] else m
  }

  function RedactOrder(m: map<string, Json>): map<string, Json> {
    if "order" in m && m["order"] != Null then m["order" := Whitelist(m["order"])] else m
  }

  function Redact(body: Json): Json {
    var stripped := Strip(body, 0);
    if !stripped.Obj? then stripped else Obj(RedactOrder(RedactOrders(stripped.fields)))
  }

  // ---- The loops ----

  method StripForbiddenKeys(v: Json, depth: nat) returns (r: Json)
    ensures r == Strip(v, depth)
    decreases v
  {
    if depth > MAX_REDACT_DEPTH {
      return Null;
    }
    match v
    case Arr(items) =>
      var out: seq<Json> := [];
      for i := 0 to |items|
        invariant |out| == i && forall j | 0 <= j < i :: out[j] == Strip(items[j], depth + 1)
      {
        var item := StripForbiddenKeys(items[i], depth + 1);
        out := out + [item];
      }
      r := Arr(out);
    case Obj(fields) =>
      var out: map<string, Json> := map[];
      var keys := fields.Keys;
      while keys != {}
        invariant keys <= fields.Keys
        invariant out == map k | k in fields && k !in keys && !Removed(k) :: Strip(fields[k], depth + 1)
        decreases keys
      {
        var key :| key in keys;
        keys := keys - {key};
        if Removed(key) {
          continue;
        }
        var value := StripForbiddenKeys(fields[key], depth + 1);
        out := out[key := value];
      }
      r := Obj(out);
    case _ =>
      r := v;
  }

  method PickScalarFields(v: Json, names: seq<string>) returns (r: Json)
    ensures r == PickScalars(v, names)
  {
    if !v.Obj? {
      return Null;
    }
    var out: map<string, Json> := map[];
    for i := 0 to |names|
      invariant out == map k | k in v.fields && k in names[..i] && IsScalar(v.fields[k]) :: v.fields[k]
    {
      assert names[..i + 1] == names[..i] + [names[i]];
      if names[i] in v.fields && IsScalar(v.fields[names[i]]) {
        out := out[names[i] := v.fields[names[i]]];
      }
    }
    assert names[..|names|] == names;
    r := Obj(out);
  }

  method WhitelistLeg(v: Json) returns (r: Json)
    ensures r == Whitelist(v)
  {
    if !v.Obj? {
      return Null;
    }
    var kept := KeepNamed(v.fields, VIEW_FIELDS);
    r := Obj(kept);
  }

  method KeepNamed(fields: map<string, Json>, names: seq<string>) returns (out: map<string, Json>)
    ensures out == Kept(fields, names)
  {
    out := map[];
    for i := 0 to |names|
      invariant out == Kept(fields, names[..i])
    {
      var field := names[i];
      assert names[..i + 1] == names[..i] + [field];
      if field !in fields {
        continue;
      }
      var value := fields[field];
      if field == "armed" {
        var detail := PickScalarFields(value, ARMED_FIELDS);
        out := out[field := detail];
      } else if field == "last_fire" {
        var detail := PickScalarFields(value, LAST_FIRE_FIELDS);
        out := out[field := detail];
      } else if IsScalar(value) {
        out := out[field := value];
      }
    }
    assert names[..|names|] == names;
  }

  /** Strips the response, then replaces its legs in place. */
  method RedactResponse(body: Json) returns (r: Json)
    ensures r == Redact(body)
  {
    r := StripForbiddenKeys(body, 0);
    if !r.Obj? {
      return;
    }
    if "orders" in r.fields && r.fields["orders"].Arr? {
      var items := r.fields["orders"].items;
      var legs: seq<Json> := [];
      for i := 0 to |items|
        invariant legs == WhitelistAll(items[..i])
      {
        var leg := WhitelistLeg(items[i]);
        assert items[..i + 1][..i] == items[..i];
        if leg != Null {
          legs := legs + [leg];
        }
      }
      assert items[..|items|] == items;
      r := Obj(r.fields["orders" := Arr(legs)]);
    }
    if "order" in r.fields && r.fields["order"] != Null {
      var leg := WhitelistLeg(r.fields["order"]);
      r := Obj(r.fields["order" := leg]);
    }
  }

  // ---- No forbidden key survives ----

  /** No removed key at any depth. */
  predicate Clean(v: Json) {
    match v
    case Arr(items) => forall i | 0 <= i < |items| :: Clean(items[i])
    case Obj(fields) => forall k | k in fields :: !Removed(k) && Clean(fields[k])
    case _ => true
  }

  /** Removing the forbidden keys everywhere, however deep. */
  function Erase(v: Json): Json {
    match v
    case Arr(items) => Arr(seq(|items|, i requires 0 <= i < |items| => Erase(items[i])))
    case Obj(fields) => Obj(map k | k in fields && !Removed(k) :: Erase(fields[k]))
    case _ => v
  }

  lemma {:induction false} StripIsClean(v: Json, depth: nat)
    ensures Clean(Strip(v, depth))
    decreases v
  {
    if depth <= MAX_REDACT_DEPTH {
      match v
      case Arr(items) =>
        forall i | 0 <= i < |items|
          ensures Clean(Strip(items[i], depth + 1))
        {
          StripIsClean(items[i], depth + 1);
        }
      case Obj(fields) =>
        forall k | k in fields
          ensures Clean(Strip(fields[k], depth + 1))
        {
          StripIsClean(fields[k], depth + 1);
        }
      case _ =>
    }
  }

  lemma StripErasedArray(items: seq<Json>, depth: nat)
    requires depth <= MAX_REDACT_DEPTH
    requires forall i | 0 <= i < |items| :: Strip(Erase(items[i]), depth + 1) == Strip(items[i], depth + 1)
    ensures Strip(Erase(Arr(items)), depth) == Strip(Arr(items), depth)
  {
    assert Strip(Erase(Arr(items)), depth).items == Strip(Arr(items), depth).items;
  }

  lemma StripErasedObject(fields: map<string, Json>, depth: nat)
    requires depth <= MAX_REDACT_DEPTH
    requires forall k | k in fields :: Strip(Erase(fields[k]), depth + 1) == Strip(fields[k], depth + 1)
    ensures Strip(Erase(Obj(fields)), depth) == Strip(Obj(fields), depth)
  {
    assert Strip(Erase(Obj(fields)), depth).fields == Strip(Obj(fields), depth).fields;
  }

  lemma {:induction false} StripAfterErase(v: Json, depth: nat)
    ensures Strip(Erase(v), depth) == Strip(v, depth)
    decreases v
  {
    if depth <= MAX_REDACT_DEPTH {
      match v
      case Arr(items) =>
        forall i | 0 <= i < |items|
          ensures Strip(Erase(items[i]), depth + 1) == Strip(items[i], depth + 1)
        {
          StripAfterErase(items[i], depth + 1);
        }
        StripErasedArray(items, depth);
      case Obj(fields) =>
        forall k | k in fields
          ensures Strip(Erase(fields[k]), depth + 1) == Strip(fields[k], depth + 1)
        {
          StripAfterErase(fields[k], depth + 1);
        }
        StripErasedObject(fields, depth);
      case _ =>
    }
  }

  lemma {:induction false} StripIdempotent(v: Json, depth: nat)
    ensures Strip(Strip(v, depth), depth) == Strip(v, depth)
    decreases v
  {
    if depth <= MAX_REDACT_DEPTH {
      match v
      case Arr(items) =>
        forall i | 0 <= i < |items|
          ensures Strip(Strip(items[i], depth + 1), depth + 1) == Strip(items[i], depth + 1)
        {
          StripIdempotent(items[i], depth + 1);
        }
      case Obj(fields) =>
        forall k | k in fields
          ensures Strip(Strip(fields[k], depth + 1), depth + 1) == Strip(fields[k], depth + 1)
        {
          StripIdempotent(fields[k], depth + 1);
        }
      case _ =>
    }
  }

  /** Nothing but null lies below the depth limit. */
  predicate Fits(v: Json, depth: nat)
    decreases v
  {
    if depth > MAX_REDACT_DEPTH then v == Null
    else
      match v
      case Arr(items) => forall i | 0 <= i < |items| :: Fits(items[i], depth + 1)
      case Obj(fields) => forall k | k in fields :: Fits(fields[k], depth + 1)
      case _ => true
  }

  /** Stripping leaves a value alone exactly when it is clean and not too deep. */
  lemma {:induction false} StripFixes(v: Json, depth: nat)
    ensures Strip(v, depth) == v <==> Clean(v) && Fits(v, depth)
    decreases v
  {
    if depth <= MAX_REDACT_DEPTH {
      match v
      case Arr(items) =>
        forall i | 0 <= i < |items|
          ensures Strip(items[i], depth + 1) == items[i] <==> Clean(items[i]) && Fits(items[i], depth + 1)
        {
          StripFixes(items[i], depth + 1);
        }
        if Strip(v, depth) == v {
          forall i | 0 <= i < |items|
            ensures Strip(items[i], depth + 1) == items[i]
          {
            assert Strip(v, depth).items[i] == items[i];
          }
        }
        if Clean(v) && Fits(v, depth) {
          assert Strip(v, depth).items == items;
        }
      case Obj(fields) =>
        forall k | k in fields
          ensures Strip(fields[k], depth + 1) == fields[k] <==> Clean(fields[k]) && Fits(fields[k], depth + 1)
        {
          StripFixes(fields[k], depth + 1);
        }
        if Strip(v, depth) == v {
          forall k | k in fields
            ensures !Removed(k) && Strip(fields[k], depth + 1) == fields[k]
          {
            assert k in Strip(v, depth).fields;
          }
        }
        if Clean(v) && Fits(v, depth) {
          assert Strip(v, depth).fields == fields;
        }
      case _ =>
    }
  }

  /** A response that carries no legs passes unchanged exactly when it is clean and not too deep. */
  lemma OtherResponsesPass(body: Json)
    requires body.Obj? ==> "orders" !in body.fields && "order" !in body.fields
    ensures Redact(body) == body <==> Clean(body) && Fits(body, 0)
  {
    StripFixes(body, 0);
  }

  lemma ViewKeysAllowed(k: string)
    ensures k in VIEW_FIELDS || k in ARMED_FIELDS || k in LAST_FIRE_FIELDS ==> !Removed(k)
  {
  }

  lemma PickedIsClean(v: Json, names: seq<string>)
    requires names == ARMED_FIELDS || names == LAST_FIRE_FIELDS
    ensures Clean(PickScalars(v, names))
    ensures forall depth: nat | depth < MAX_REDACT_DEPTH :: Strip(PickScalars(v, names), depth) == PickScalars(v, names)
    ensures PickScalars(PickScalars(v, names), names) == PickScalars(v, names)
  {
    if v.Obj? {
      forall k | k in names
        ensures !Removed(k)
      {
        ViewKeysAllowed(k);
      }
    }
  }

  lemma KeptField(fields: map<string, Json>, k: string)
    requires k in Kept(fields, VIEW_FIELDS)
    ensures var x := Kept(fields, VIEW_FIELDS)[k];
            && !Removed(k) && Clean(x)
            && (forall depth: nat | depth < MAX_REDACT_DEPTH :: Strip(x, depth) == x)
            && (if k == "armed" then PickScalars(x, ARMED_FIELDS) == x
                else if k == "last_fire" then PickScalars(x, LAST_FIRE_FIELDS) == x
                else IsScalar(x))
  {
    ViewKeysAllowed(k);
    PickedIsClean(fields[k], ARMED_FIELDS);
    PickedIsClean(fields[k], LAST_FIRE_FIELDS);
  }

  lemma KeptTwice(fields: map<string, Json>)
    ensures Kept(Kept(fields, VIEW_FIELDS), VIEW_FIELDS) == Kept(fields, VIEW_FIELDS)
  {
    var w := Kept(fields, VIEW_FIELDS);
    forall k | k in w
      ensures k in Kept(w, VIEW_FIELDS) && Kept(w, VIEW_FIELDS)[k] == w[k]
    {
      KeptField(fields, k);
    }
  }

  lemma StripObject(m: map<string, Json>, depth: nat)
    requires depth <= MAX_REDACT_DEPTH
    requires forall k | k in m :: !Removed(k) && Strip(m[k], depth + 1) == m[k]
    ensures Strip(Obj(m), depth) == Obj(m)
  {
    assert Strip(Obj(m), depth).fields == m;
  }

  lemma KeptStripped(fields: map<string, Json>, depth: nat)
    requires depth + 1 < MAX_REDACT_DEPTH
    ensures Strip(Obj(Kept(fields, VIEW_FIELDS)), depth) == Obj(Kept(fields, VIEW_FIELDS))
  {
    var w := Kept(fields, VIEW_FIELDS);
    forall k | k in w
      ensures !Removed(k) && Strip(w[k], depth + 1) == w[k]
    {
      KeptField(fields, k);
    }
    StripObject(w, depth);
  }

  lemma WhitelistedIsClean(v: Json)
    ensures Clean(Whitelist(v))
    ensures Strip(Whitelist(v), 1) == Whitelist(v) && Strip(Whitelist(v), 2) == Whitelist(v)
    ensures Whitelist(Whitelist(v)) == Whitelist(v)
  {
    if v.Obj? {
      var w := Kept(v.fields, VIEW_FIELDS);
      forall k | k in w
        ensures !Removed(k) && Clean(w[k])
      {
        KeptField(v.fields, k);
      }
      KeptTwice(v.fields);
      KeptStripped(v.fields, 1);
      KeptStripped(v.fields, 2);
    }
  }

  lemma {:induction false} WhitelistAllStable(items: seq<Json>)
    ensures var w := WhitelistAll(items);
            && (forall i | 0 <= i < |w| :: w[i] != Null && Clean(w[i]) && Strip(w[i], 2) == w[i])
            && WhitelistAll(w) == w
  {
    if items != [] {
      var init := items[..|items| - 1];
      WhitelistAllStable(init);
      WhitelistedIsClean(items[|items| - 1]);
      var last := Whitelist(items[|items| - 1]);
      if last != Null {
        assert (WhitelistAll(init) + [last])[..|WhitelistAll(init)|] == WhitelistAll(init);
      } else {
        assert WhitelistAll(init) + [] == WhitelistAll(init);
      }
    }
  }

  lemma {:induction false} WhitelistAllClean(items: seq<Json>)
    ensures Clean(Arr(WhitelistAll(items))) && Strip(Arr(WhitelistAll(items)), 1) == Arr(WhitelistAll(items))
  {
    WhitelistAllStable(items);
    var w := WhitelistAll(items);
    assert Strip(Arr(w), 1).items == w;
  }

  /** Nothing forbidden leaves, at any depth. */
  lemma RedactedIsClean(body: Json)
    ensures Clean(Redact(body))
  {
    StripIsClean(body, 0);
    var stripped := Strip(body, 0);
    if stripped.Obj? {
      var m := stripped.fields;
      if "orders" in m && m["orders"].Arr? {
        WhitelistAllClean(m["orders"].items);
      }
      if "order" in m {
        WhitelistedIsClean(m["order"]);
      }
    }
  }

  /** Nothing under a forbidden key has any influence on what leaves. */
  lemma RedactNonInterference(a: Json, b: Json)
    requires Erase(a) == Erase(b)
    ensures Redact(a) == Redact(b)
    ensures Redact(Erase(a)) == Redact(a)
  {
    StripAfterErase(a, 0);
    StripAfterErase(b, 0);
  }

  /** Null, or an object with scalars under the given keys and nothing else. */
  predicate IsDetail(v: Json, names: seq<string>) {
    v == Null || (v.Obj? && forall k | k in v.fields :: k in names && IsScalar(v.fields[k]))
  }

  /** An object with no key outside the view, scalars under every key but two, and details under those. */
  predicate IsLegView(v: Json) {
    && v.Obj?
    && forall k | k in v.fields ::
         && k in VIEW_FIELDS
         && (if k == "armed" then IsDetail(v.fields[k], ARMED_FIELDS)
             else if k == "last_fire" then IsDetail(v.fields[k], LAST_FIRE_FIELDS)
             else IsScalar(v.fields[k]))
  }

  lemma PickFixes(v: Json, names: seq<string>)
    ensures PickScalars(v, names) == v <==> IsDetail(v, names)
  {
    if v.Obj? {
      var p := PickScalars(v, names).fields;
      assert forall k | k in p :: k in v.fields;
      if IsDetail(v, names) {
        assert p == v.fields;
      }
    }
  }

  /** The whitelist leaves an object alone exactly when it is a leg view. */
  lemma WhitelistFixes(v: Json)
    requires v.Obj?
    ensures Whitelist(v) == v <==> IsLegView(v)
  {
    var f := v.fields;
    var w := Kept(f, VIEW_FIELDS);
    forall k | k in f ensures PickScalars(f[k], ARMED_FIELDS) == f[k] <==> IsDetail(f[k], ARMED_FIELDS) {
      PickFixes(f[k], ARMED_FIELDS);
    }
    forall k | k in f ensures PickScalars(f[k], LAST_FIRE_FIELDS) == f[k] <==> IsDetail(f[k], LAST_FIRE_FIELDS) {
      PickFixes(f[k], LAST_FIRE_FIELDS);
    }
    if IsLegView(v) {
      assert w == f;
    }
    if w == f {
      assert forall k | k in f :: k in w && w[k] == f[k];
    }
  }

  lemma WhitelistedIsView(v: Json)
    requires v.Obj?
    ensures IsLegView(Whitelist(v))
  {
    WhitelistedIsClean(v);
    WhitelistFixes(Whitelist(v));
  }

  lemma {:induction false} WhitelistAllViews(items: seq<Json>)
    ensures forall i | 0 <= i < |WhitelistAll(items)| :: IsLegView(WhitelistAll(items)[i])
  {
    if items != [] {
      WhitelistAllViews(items[..|items| - 1]);
      if items[|items| - 1].Obj? {
        WhitelistedIsView(items[|items| - 1]);
      }
    }
  }

  /** Every leg that leaves, in the list or by itself, is a leg view, its two details included; a list stays a list. */
  lemma RedactedLegsAreViews(body: Json)
    ensures var s, r := Strip(body, 0), Redact(body);
            s.Obj? ==>
              && r.Obj?
              && ("orders" in s.fields && s.fields["orders"].Arr? ==>
                    && "orders" in r.fields && r.fields["orders"].Arr?
                    && forall i | 0 <= i < |r.fields["orders"].items| :: IsLegView(r.fields["orders"].items[i]))
              && ("order" in s.fields ==>
                    "order" in r.fields && (r.fields["order"] == Null || IsLegView(r.fields["order"])))
  {
    var s := Strip(body, 0);
    if s.Obj? {
      if "orders" in s.fields && s.fields["orders"].Arr? {
        WhitelistAllViews(s.fields["orders"].items);
      }
      if "order" in s.fields && s.fields["order"].Obj? {
        WhitelistedIsView(s.fields["order"]);
      }
    }
  }

  /** Every field is one that stripping at the top leaves alone. */
  ghost predicate Settled(m: map<string, Json>) {
    forall k | k in m :: !Removed(k) && Strip(m[k], 1) == m[k]
  }

  lemma SettledIffFixed(m: map<string, Json>)
    ensures Settled(m) <==> Strip(Obj(m), 0) == Obj(m)
  {
    var s := Strip(Obj(m), 0).fields;
    if Settled(m) {
      StripObject(m, 0);
    }
    if s == m {
      forall k | k in m
        ensures !Removed(k) && Strip(m[k], 1) == m[k]
      {
        assert k in s;
      }
    }
  }

  lemma OrdersRedactedOnce(m: map<string, Json>)
    requires Settled(m)
    ensures Settled(RedactOrders(m)) && RedactOrders(RedactOrders(m)) == RedactOrders(m)
  {
    if "orders" in m && m["orders"].Arr? {
      WhitelistAllClean(m["orders"].items);
      WhitelistAllStable(m["orders"].items);
      var a := RedactOrders(m);
      assert RedactOrders(a) == a["orders" := a["orders"]];
    }
  }

  lemma OrderRedactedOnce(m: map<string, Json>)
    requires Settled(m)
    ensures Settled(RedactOrder(m)) && RedactOrder(RedactOrder(m)) == RedactOrder(m)
    ensures RedactOrders(m) == m ==> RedactOrders(RedactOrder(m)) == RedactOrder(m)
  {
    if "order" in m && m["order"] != Null {
      WhitelistedIsClean(m["order"]);
      var a := RedactOrder(m);
      assert a["order"] != Null ==> RedactOrder(a) == a["order" := a["order"]];
      if "orders" in m && m["orders"].Arr? && RedactOrders(m) == m {
        assert m["orders"] == RedactOrders(m)["orders"];
        assert a["orders"] == m["orders"];
        assert RedactOrders(a) == a["orders" := a["orders"]];
      }
    }
  }

  /** Redacting twice is redacting once. */
  lemma RedactIdempotent(body: Json)
    ensures Redact(Redact(body)) == Redact(body)
  {
    StripIdempotent(body, 0);
    var stripped := Strip(body, 0);
    if stripped.Obj? {
      var m := stripped.fields;
      SettledIffFixed(m);
      OrdersRedactedOnce(m);
      OrderRedactedOnce(RedactOrders(m));
      SettledIffFixed(RedactOrder(RedactOrders(m)));
    }
  }
}
