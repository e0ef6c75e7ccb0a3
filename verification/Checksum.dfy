/** The parameter checksum of a deployment (pkg/checksum), which leaves out the part of the cloud
    configurations that changes on every pass. */
module Checksum {
  import opened Common

  datatype Json = Null | Bool(b: bool) | Number(n: int) | Text(s: string) | Array(items: seq<Json>)
                | Object(fields: map<string, Json>)

  /** The encodings and the hash; decoding and parsing may fail. */
  datatype Codec = Codec(decode64: string -> Option<string>, parse: string -> Option<Json>,
                         marshal: Json -> string, encode64: string -> string, hash: string -> string)

  predicate CloudConfig(k: string) { k == "workerCloudConfigData" || k == "masterCloudConfigData" }

  /** The document without ignition.config. None when it is no object or its ignition field is none. */
  function Nulled(j: Json): Option<Json> {
    if j.Null? then Some(j)
    else if !j.Object? then None
    else if "ignition" !in j.fields then Some(j)
    else if !j.fields["ignition"].Object? then None
    else Some(Object(j.fields["ignition" := Object(j.fields["ignition"].fields["config" := Null])]))
  }

  /** The document behind a cloud configuration, if it can be read. */
  function Document(v: Json, c: Codec): Option<Json> {
    if !v.Text? then None else
    var decoded := c.decode64(v.s);
    if decoded.None? then None else c.parse(decoded.value)
  }

  /** What one parameter stands for: a cloud configuration for its document without ignition.config, any
      other parameter for itself. */
  function Meaning(k: string, v: Json, c: Codec): Option<Json> {
    if !CloudConfig(k) then Some(v)
    else
      var doc := Document(v, c);
      if doc.None? then None else Nulled(doc.value)
  }

  function Filtered(k: string, v: Json, c: Codec): Json
    requires Meaning(k, v, c).Some?
  {
    if CloudConfig(k) then Text(c.encode64(c.marshal(Meaning(k, v, c).value))) else Object(map["Value" := v])
  }

  predicate Readable(params: map<string, Json>, c: Codec) {
    forall k <- params :: Meaning(k, params[k], c).Some?
  }

  function FilteredParams(params: map<string, Json>, c: Codec): map<string, Json>
    requires Readable(params, c)
  {
    map k <- params :: Filtered(k, params[k], c)
  }

  function ParametersChecksum(params: map<string, Json>, c: Codec): Option<string> {
    if Readable(params, c) then Some(c.hash(c.marshal(Object(FilteredParams(params, c))))) else None
  }

  method ConfigWithoutIgnitionConfig(v: Json, c: Codec) returns (r: Option<Json>)
    ensures r == if Document(v, c).None? then None else Nulled(Document(v, c).value)
  {
    if !v.Text? { return None; }
    var decoded := c.decode64(v.s);
    if decoded.None? { return None; }
    var m := c.parse(decoded.value);
    if m.None? { return None; }
    var doc := m.value;
    if !doc.Object? && !doc.Null? { return None; }
    if doc.Object? && "ignition" in doc.fields {
      if !doc.fields["ignition"].Object? { return None; }
      doc := Object(doc.fields["ignition" := Object(doc.fields["ignition"].fields["config" := Null])]);
    }
    return Some(doc);
  }

  /** The keys are visited in any order, as Go visits a map; the result does not depend on it. */
  method GetDeploymentParametersChecksum(params: map<string, Json>, c: Codec) returns (r: Option<string>)
    ensures r == ParametersChecksum(params, c)
  {
    hide Nulled, Document;
    var filtered: map<string, Json> := map[];
    var todo := params.Keys;
    while todo != {}
      invariant todo <= params.Keys && filtered.Keys == params.Keys - todo
      invariant forall k <- filtered :: Meaning(k, params[k], c).Some? && filtered[k] == Filtered(k, params[k], c)
    {
      var k :| k in todo;
      todo := todo - {k};
      if k == "workerCloudConfigData" || k == "masterCloudConfigData" {
        var doc := ConfigWithoutIgnitionConfig(params[k], c);
        if doc.None? { return None; }
        filtered := filtered[k := Text(c.encode64(c.marshal(doc.value)))];
      } else {
        filtered := filtered[k := Object(map["Value" := params[k]])];
      }
    }
    assert filtered == FilteredParams(params, c);
    return Some(c.hash(c.marshal(Object(filtered))));
  }

  /** The same parameters, up to ignition.config in the cloud configurations. */
  predicate SameMeaning(p: map<string, Json>, q: map<string, Json>, c: Codec) {
    p.Keys == q.Keys && forall k <- p :: Meaning(k, p[k], c) == Meaning(k, q[k], c)
  }

  /** Main result on the checksum, first half: parameters that mean the same have the same checksum. */
  lemma ChecksumIgnoresIgnitionConfig(p: map<string, Json>, q: map<string, Json>, c: Codec)
    requires SameMeaning(p, q, c)
    ensures ParametersChecksum(p, c) == ParametersChecksum(q, c)
  {
    assert Readable(p, c) == Readable(q, c) by {
      assert forall k <- q :: k in p;
    }
    if Readable(p, c) { assert FilteredParams(p, c) == FilteredParams(q, c); }
  }

  /** Any change under ignition.config, also adding it, keeps the meaning of a cloud configuration. */
  lemma IgnitionConfigIsIgnored(fields: map<string, Json>, ignition: map<string, Json>, config: Json)
    ensures var doc, changed := Object(fields["ignition" := Object(ignition)]),
                                Object(fields["ignition" := Object(ignition["config" := config])]);
      Nulled(changed) == Nulled(doc)
  {
    assert ignition["config" := config]["config" := Null] == ignition["config" := Null];
    var f, g := fields["ignition" := Object(ignition)], fields["ignition" := Object(ignition["config" := config])];
    assert f["ignition" := Object(ignition["config" := Null])] == g["ignition" := Object(ignition["config" := Null])];
  }

  /** A cloud configuration may be replaced by any other one that decodes to the same document up to a change under
      ignition.config, without changing the checksum of the parameters. */
  lemma ChangedIgnitionKeepsChecksum(params: map<string, Json>, k: string, text: string, fields: map<string, Json>,
                                     ignition: map<string, Json>, config: Json, c: Codec)
    requires CloudConfig(k) && k in params
    requires Document(params[k], c) == Some(Object(fields["ignition" := Object(ignition)]))
    requires Document(Text(text), c) == Some(Object(fields["ignition" := Object(ignition["config" := config])]))
    ensures ParametersChecksum(params[k := Text(text)], c) == ParametersChecksum(params, c)
  {
    IgnitionConfigIsIgnored(fields, ignition, config);
    var changed := params[k := Text(text)];
    assert Meaning(k, changed[k], c) == Meaning(k, params[k], c);
    hide Meaning, Document, ParametersChecksum;
    ChecksumIgnoresIgnitionConfig(params, changed, c);
  }

  ghost predicate Injective<A(!new), B>(f: A -> B) { forall x, y :: f(x) == f(y) ==> x == y }

  /** Main result on the checksum: with injective encodings and hash, two readable parameter sets have
      the same checksum exactly when they mean the same. */
  lemma ChecksumIff(p: map<string, Json>, q: map<string, Json>, c: Codec)
    requires Injective(c.marshal) && Injective(c.encode64) && Injective(c.hash)
    requires Readable(p, c) && Readable(q, c)
    ensures ParametersChecksum(p, c) == ParametersChecksum(q, c) <==> SameMeaning(p, q, c)
  {
    if ParametersChecksum(p, c) == ParametersChecksum(q, c) {
      var f, g := FilteredParams(p, c), FilteredParams(q, c);
      assert c.marshal(Object(f)) == c.marshal(Object(g));
      assert Object(f) == Object(g);
      assert p.Keys == f.Keys == g.Keys == q.Keys;
      forall k <- p ensures Meaning(k, p[k], c) == Meaning(k, q[k], c) {
        assert k in f && f[k] == g[k];
        if CloudConfig(k) {
          SameText(Meaning(k, p[k], c).value, Meaning(k, q[k], c).value, c);
        } else {
          assert Object(map["Value" := p[k]]).fields["Value"] == Object(map["Value" := q[k]]).fields["Value"];
        }
      }
    } else {
      if SameMeaning(p, q, c) { ChecksumIgnoresIgnitionConfig(p, q, c); assert false; }
    }
  }

  lemma SameText(a: Json, b: Json, c: Codec)
    requires Injective(c.marshal) && Injective(c.encode64) && c.encode64(c.marshal(a)) == c.encode64(c.marshal(b))
    ensures a == b
  {
    assert c.marshal(a) == c.marshal(b);
  }

  // ---------------------------------------------------------------- what counts

  /** A document that the program can handle: null, or an object whose ignition field, if any, is an object. */
  predicate Handled(j: Json) {
    j.Null? || (j.Object? && ("ignition" in j.fields ==> j.fields["ignition"].Object?))
  }

  /** The objects agree in every field but one. */
  predicate AgreeBut(a: map<string, Json>, b: map<string, Json>, key: string) {
    a.Keys - {key} == b.Keys - {key} && forall k <- a :: k != key ==> k in b && a[k] == b[k]
  }

  /** The documents agree in everything but ignition.config. */
  predicate SameDocument(a: Json, b: Json)
    requires Handled(a) && Handled(b)
  {
    if a.Null? || b.Null? then a == b
    else
      && AgreeBut(a.fields, b.fields, "ignition")
      && ("ignition" in a.fields <==> "ignition" in b.fields)
      && ("ignition" in a.fields ==> AgreeBut(a.fields["ignition"].fields, b.fields["ignition"].fields, "config"))
  }

  lemma OneFieldSet(a: map<string, Json>, b: map<string, Json>, key: string, x: Json, y: Json)
    ensures a[key := x] == b[key := y] <==> AgreeBut(a, b, key) && x == y
  {
    var f, g := a[key := x], b[key := y];
    assert f.Keys == (a.Keys - {key}) + {key} && g.Keys == (b.Keys - {key}) + {key};
    if f == g {
      assert f[key] == g[key];
      forall k <- a | k != key ensures k in b && a[k] == b[k] { assert k in f && f[k] == g[k]; }
      forall k <- b | k != key ensures k in a { assert k in g; }
    }
  }

  /** What counts of a document: two that can be handled have the same image exactly when they agree in everything but
      ignition.config; a document without ignition is not one with it. */
  lemma NulledIff(a: Json, b: Json)
    ensures Nulled(a).Some? <==> Handled(a)
    ensures Handled(a) && Handled(b) ==> (Nulled(a) == Nulled(b) <==> SameDocument(a, b))
  {
    if Handled(a) && Handled(b) && a.Object? && b.Object? {
      var f, g := a.fields, b.fields;
      if "ignition" in f && "ignition" in g {
        var i, j := f["ignition"].fields, g["ignition"].fields;
        OneFieldSet(i, j, "config", Null, Null);
        OneFieldSet(f, g, "ignition", Object(i["config" := Null]), Object(j["config" := Null]));
      } else if "ignition" !in f && "ignition" !in g {
        AgreeEverywhere(f, g, "ignition");
      } else {
        KeysDiffer(a, b);
      }
    }
  }

  lemma AgreeEverywhere(a: map<string, Json>, b: map<string, Json>, key: string)
    requires key !in a && key !in b
    ensures AgreeBut(a, b, key) <==> a == b
  {
    assert a.Keys - {key} == a.Keys && b.Keys - {key} == b.Keys;
  }

  lemma KeysDiffer(a: Json, b: Json)
    requires a.Object? && b.Object? && Handled(a) && Handled(b)
    requires "ignition" in a.fields <==> "ignition" !in b.fields
    ensures Nulled(a) != Nulled(b)
  {
    assert "ignition" in Nulled(a).value.fields <==> "ignition" in a.fields;
    assert "ignition" in Nulled(b).value.fields <==> "ignition" in b.fields;
  }

  /** The parameter is base 64 of the text of a document that can be handled. */
  predicate HoldsConfig(v: Json, c: Codec) {
    && v.Text? && c.decode64(v.s).Some? && c.parse(c.decode64(v.s).value).Some?
    && Handled(c.parse(c.decode64(v.s).value).value)
  }

  function Config(v: Json, c: Codec): Json
    requires HoldsConfig(v, c)
  {
    c.parse(c.decode64(v.s).value).value
  }

  /** Main result on what the checksum tells apart, in terms of the parameters alone. There is one exactly when every
      cloud configuration holds a document that can be handled; with injective encodings and hash, two sets of
      parameters have the same one exactly when they have the same keys, the documents of their cloud configurations
      agree in everything but ignition.config, and all their other parameters are equal. */
  lemma ChecksumDecides(p: map<string, Json>, q: map<string, Json>, c: Codec)
    requires Injective(c.marshal) && Injective(c.encode64) && Injective(c.hash)
    ensures ParametersChecksum(p, c).Some? <==>
      forall k <- p :: k == "workerCloudConfigData" || k == "masterCloudConfigData" ==> HoldsConfig(p[k], c)
    ensures ParametersChecksum(p, c).Some? && ParametersChecksum(q, c).Some? ==>
      (ParametersChecksum(p, c) == ParametersChecksum(q, c) <==>
       p.Keys == q.Keys && forall k <- p ::
         if k == "workerCloudConfigData" || k == "masterCloudConfigData"
         then HoldsConfig(p[k], c) && HoldsConfig(q[k], c) && SameDocument(Config(p[k], c), Config(q[k], c))
         else p[k] == q[k])
  {
    forall k <- p ensures Meaning(k, p[k], c).Some? <==> (CloudConfig(k) ==> HoldsConfig(p[k], c)) {
      MeaningOf(k, p[k], p[k], c);
    }
    if ParametersChecksum(p, c).Some? && ParametersChecksum(q, c).Some? {
      ChecksumIff(p, q, c);
      if p.Keys == q.Keys {
        forall k <- p
          ensures Meaning(k, p[k], c) == Meaning(k, q[k], c) <==>
            if CloudConfig(k) then HoldsConfig(p[k], c) && HoldsConfig(q[k], c)
                                && SameDocument(Config(p[k], c), Config(q[k], c))
            else p[k] == q[k]
        {
          MeaningOf(k, p[k], q[k], c);
          assert Meaning(k, p[k], c).Some? && Meaning(k, q[k], c).Some? by { assert k in q; }
        }
      }
    }
    hide Meaning, Config, HoldsConfig, SameDocument, Filtered;
  }

  lemma MeaningOf(k: string, v: Json, u: Json, c: Codec)
    ensures Meaning(k, v, c).Some? <==> (CloudConfig(k) ==> HoldsConfig(v, c))
    ensures CloudConfig(k) && HoldsConfig(v, c) && HoldsConfig(u, c) ==>
      (Meaning(k, v, c) == Meaning(k, u, c) <==> SameDocument(Config(v, c), Config(u, c)))
    ensures !CloudConfig(k) ==> (Meaning(k, v, c) == Meaning(k, u, c) <==> v == u)
    ensures CloudConfig(k) && Meaning(k, u, c).Some? ==> HoldsConfig(u, c)
  {
    var a, b := Document(v, c), Document(u, c);
    if a.Some? { NulledIff(a.value, a.value); }
    if b.Some? { NulledIff(b.value, b.value); }
    if a.Some? && b.Some? { NulledIff(a.value, b.value); }
    hide Nulled, Handled, SameDocument;
  }
}
