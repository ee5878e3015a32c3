/**
 * `SecretMake`: the child Secret of a VaultSecret. Its data are the entries
 * of the `"data"` object of the Vault response, each string value turned
 * into bytes; it is named after the VaultSecret, carries one annotation
 * mapping the VaultSecret's API version to its kind, and is owned by the
 * VaultSecret.
 */
module SecretMaker {
  import opened Wrappers
  import opened Utf8
  import opened Types

  /** The owner reference `ctrl.SetControllerReference` records for `es`. */
  function ControllerReference(es: VaultSecret): (ref: OwnerReference)
    ensures ref.uid == es.uid && ref.name == es.name
    ensures ref.controller && ref.blockOwnerDeletion
  {
    OwnerReference(es.apiVersion, es.kind, es.name, es.uid, true, true)
  }

  /** The entries of the response's `"data"` object, as bytes; empty for a nil response or one without `"data"`. */
  function SecretData(resp: Option<VaultResponse>): (data: map<string, seq<uint8>>)
    requires resp.Some? ==> WellShaped(resp.value)
    ensures resp.None? || "data" !in resp.value.data ==> data == map[]
    ensures resp.Some? && "data" in resp.value.data ==> data.Keys == resp.value.data["data"].fields.Keys
  {
    if resp.None? || "data" !in resp.value.data then map[]
    else
      var fields := resp.value.data["data"].fields;
      map k | k in fields :: Encode(fields[k].s)
  }

  /** The Secret `SecretMake` builds for `es` from `resp`. */
  function SecretFor(es: VaultSecret, resp: Option<VaultResponse>): (s: Secret)
    requires resp.Some? ==> WellShaped(resp.value)
    ensures s.Key() == es.Key() && s.annotations == map[es.apiVersion := es.kind]
    ensures s.data == SecretData(resp) && s.ownerReferences == [ControllerReference(es)]
  {
    Secret(es.name, es.namespace, map[es.apiVersion := es.kind], SecretData(resp), [ControllerReference(es)])
  }

  /** `SecretMake`: the nested loops over the response copy the `"data"` entries one at a time. */
  method SecretMake(es: VaultSecret, secret: Option<VaultResponse>) returns (s: Secret, err: Option<Error>)
    requires secret.Some? ==> WellShaped(secret.value)
    ensures s == SecretFor(es, secret)
    ensures err.None?
  {
    var secObjData: map<string, seq<uint8>> := map[];
    if secret.Some? {
      var top := secret.value.data.Keys;
      while top != {}
        invariant top <= secret.value.data.Keys
        invariant secObjData == if "data" in secret.value.data && "data" !in top then SecretData(secret) else map[]
        decreases top
      {
        var k :| k in top;
        if k == "data" {
          var fields := secret.value.data[k].fields;
          var rest := fields.Keys;
          while rest != {}
            invariant rest <= fields.Keys
            invariant secObjData == map kk | kk in fields.Keys - rest :: Encode(fields[kk].s)
            decreases rest
          {
            var kk :| kk in rest;
            secObjData := secObjData[kk := Encode(fields[kk].s)];
            rest := rest - {kk};
          }
        }
        top := top - {k};
      }
    }
    s := Secret(es.name, es.namespace, map[es.apiVersion := es.kind], secObjData, [ControllerReference(es)]);
    err := None;
  }

  /**
   * The Secret's keys are exactly those of the `"data"` object, and each value
   * holds the bytes of the corresponding string (they decode back to it).
   */
  lemma SecretDataMatchesPayload(resp: VaultResponse)
    requires WellShaped(resp) && "data" in resp.data
    ensures SecretData(Some(resp)).Keys == resp.data["data"].fields.Keys
    ensures forall k :: k in SecretData(Some(resp)) ==>
      Decode(SecretData(Some(resp))[k]) == Some(resp.data["data"].fields[k].s)
  {
    var fields := resp.data["data"].fields;
    forall k | k in SecretData(Some(resp))
      ensures Decode(SecretData(Some(resp))[k]) == Some(fields[k].s)
    {
      DecodeEncode(fields[k].s);
    }
  }

  /** A nil response, or one without a `"data"` entry, yields a Secret with no data. */
  lemma SecretDataEmpty(resp: Option<VaultResponse>)
    requires resp.Some? ==> WellShaped(resp.value)
    requires resp.None? || "data" !in resp.value.data
    ensures SecretData(resp) == map[]
  {
  }

  /** Only the `"data"` entry of the response matters: every other top-level entry is ignored. */
  lemma SecretDataIgnoresOtherKeys(r1: VaultResponse, r2: VaultResponse)
    requires WellShaped(r1) && WellShaped(r2)
    requires ("data" in r1.data) == ("data" in r2.data)
    requires "data" in r1.data ==> r1.data["data"] == r2.data["data"]
    ensures SecretData(Some(r1)) == SecretData(Some(r2))
  {
  }

  /** The Secret is keyed like `es`, carries the single annotation apiVersion -> kind, and `es` is its one controlling owner. */
  lemma SecretForMetadata(es: VaultSecret, resp: Option<VaultResponse>)
    requires resp.Some? ==> WellShaped(resp.value)
    ensures SecretFor(es, resp).Key() == es.Key()
    ensures SecretFor(es, resp).annotations.Keys == {es.apiVersion}
    ensures SecretFor(es, resp).annotations[es.apiVersion] == es.kind
    ensures |SecretFor(es, resp).ownerReferences| == 1
    ensures SecretFor(es, resp).ownerReferences[0].uid == es.uid
    ensures SecretFor(es, resp).ownerReferences[0].controller
  {
  }

  /** Maps with the same keys and the same value under each key are equal. */
  lemma SameEntries(d: map<string, seq<uint8>>, m: map<string, seq<uint8>>)
    requires d.Keys == m.Keys && forall k :: k in d ==> d[k] == m[k]
    ensures d == m
  {
  }

  /** Each key of the `"data"` object maps to the bytes of its string. */
  lemma SecretDataBytes(resp: VaultResponse)
    requires WellShaped(resp) && "data" in resp.data
    ensures SecretData(Some(resp)).Keys == resp.data["data"].fields.Keys
    ensures forall k :: k in resp.data["data"].fields ==> SecretData(Some(resp))[k] == Encode(resp.data["data"].fields[k].s)
  {
  }

  /** The payload `{data: {user: alice, pass: s3cret}}` becomes exactly `{user: "alice" as bytes, pass: "s3cret" as bytes}`. */
  lemma SecretDataExample(other: Value)
    ensures SecretData(Some(VaultResponse(map[
      "data" := Object(map["user" := Str("alice"), "pass" := Str("s3cret")]),
      "metadata" := other])))
      == map["user" := [0x61, 0x6C, 0x69, 0x63, 0x65], "pass" := [0x73, 0x33, 0x63, 0x72, 0x65, 0x74]]
  {
    var resp := VaultResponse(map[
      "data" := Object(map["user" := Str("alice"), "pass" := Str("s3cret")]),
      "metadata" := other]);
    var m := map["user" := [0x61, 0x6C, 0x69, 0x63, 0x65], "pass" := [0x73, 0x33, 0x63, 0x72, 0x65, 0x74]];
    SecretDataBytes(resp);
    AsciiBytes("alice", m["user"]);
    AsciiBytes("s3cret", m["pass"]);
    SameEntries(SecretData(Some(resp)), m);
  }
}
