/**
 * The `ArticleSummary` record and the construction `ArticleSummary(**parsed)`
 * from a decoded reply: pydantic accepts a mapping whose four required keys
 * hold strings, copies them, and ignores every other key.
 */
module ArticleSchema {
  import opened Wrappers
  import opened JsonValue
  import opened Errors

  datatype ArticleSummary = ArticleSummary(judul: string, tanggal: string, penulis: string, ringkasan: string)

  /** The required fields, in declaration order. */
  const FieldNames: seq<string> := ["judul", "tanggal", "penulis", "ringkasan"]

  predicate IsStringField(m: map<string, Json>, key: string) {
    key in m && m[key].JString?
  }

  /** The value is an object with all four required fields holding strings. */
  predicate HasSummaryFields(j: Json) {
    j.JObject? && forall k | k in FieldNames :: IsStringField(j.members, k)
  }

  /** The object `j` holds exactly the strings of `s` under the four keys. */
  predicate Carries(j: Json, s: ArticleSummary) {
    && j.JObject?
    && "judul" in j.members && j.members["judul"] == JString(s.judul)
    && "tanggal" in j.members && j.members["tanggal"] == JString(s.tanggal)
    && "penulis" in j.members && j.members["penulis"] == JString(s.penulis)
    && "ringkasan" in j.members && j.members["ringkasan"] == JString(s.ringkasan)
  }

  /** The required fields that are missing or not strings, in declaration order. */
  function FailingFields(m: map<string, Json>): (r: seq<string>)
    ensures forall k :: k in r <==> k in FieldNames && !IsStringField(m, k)
  {
    (if IsStringField(m, "judul") then [] else ["judul"])
    + (if IsStringField(m, "tanggal") then [] else ["tanggal"])
    + (if IsStringField(m, "penulis") then [] else ["penulis"])
    + (if IsStringField(m, "ringkasan") then [] else ["ringkasan"])
  }

  /** `ArticleSummary(**j)`. */
  function FromJson(j: Json): (r: Result<ArticleSummary, Exception>)
    ensures r.Ok? <==> HasSummaryFields(j)
    ensures r.Ok? ==> Carries(j, r.value)
    ensures !j.JObject? ==> r == Err(NotAMapping)
    ensures j.JObject? && r.Err? ==>
              r.error.ValidationError? && r.error.fields != []
              && forall k :: k in r.error.fields <==> k in FieldNames && !IsStringField(j.members, k)
  {
    match j
    case JObject(m) =>
      var failing := FailingFields(m);
      if failing == [] then
        Ok(ArticleSummary(m["judul"].str, m["tanggal"].str, m["penulis"].str, m["ringkasan"].str))
      else
        assert !HasSummaryFields(j) by {
          var k := failing[0];
          assert k in FieldNames && !IsStringField(m, k);
        }
        Err(ValidationError(failing))
    case _ => Err(NotAMapping)
  }

  /** `summary.model_dump()`: the record as a four-key object. */
  function ToJson(s: ArticleSummary): (j: Json)
    ensures Carries(j, s)
    ensures j.JObject? && j.members.Keys == set k | k in FieldNames
  {
    JObject(map["judul" := JString(s.judul), "tanggal" := JString(s.tanggal),
                "penulis" := JString(s.penulis), "ringkasan" := JString(s.ringkasan)])
  }

  /** An object carries at most one summary. */
  lemma CarriesUnique(j: Json, s: ArticleSummary, t: ArticleSummary)
    requires Carries(j, s) && Carries(j, t)
    ensures s == t
  {
  }

  /** Dumping a summary and validating the dump gives the summary back. */
  lemma DumpThenValidate(s: ArticleSummary)
    ensures FromJson(ToJson(s)) == Ok(s)
  {
    var j := ToJson(s);
    assert HasSummaryFields(j) by {
      forall k | k in FieldNames ensures IsStringField(j.members, k) { }
    }
    CarriesUnique(j, s, FromJson(j).value);
  }

  /** Keys other than the four required ones never change the outcome. */
  lemma ExtraKeysIgnored(m: map<string, Json>, extra: map<string, Json>)
    requires forall k | k in extra :: k !in FieldNames
    ensures FromJson(JObject(m + extra)) == FromJson(JObject(m))
  {
    var m' := m + extra;
    forall k | k in FieldNames ensures IsStringField(m', k) == IsStringField(m, k) {
      assert k !in extra;
    }
    assert FailingFields(m') == FailingFields(m);
  }

  /** Validation does not require a non-empty synopsis. */
  lemma EmptySynopsisAccepted(judul: string, tanggal: string, penulis: string)
    ensures FromJson(JObject(map["judul" := JString(judul), "tanggal" := JString(tanggal),
                                 "penulis" := JString(penulis), "ringkasan" := JString("")]))
            == Ok(ArticleSummary(judul, tanggal, penulis, ""))
  {
    DumpThenValidate(ArticleSummary(judul, tanggal, penulis, ""));
  }
}
