/** The generic error, byte for byte. */
module ErrorBytes {
  import opened Json
  import opened Lexical
  import opened Framing
  import opened Transformer

  /** No character of the text is escaped. */
  predicate IsPlain(s: string) {
    forall i :: 0 <= i < |s| ==> IsPrintable(s[i])
  }

  predicate IsPrintable(c: char) {
    ' ' <= c && c != '\"' && c != '\\'
  }

  lemma {:induction false} PlainIsItself(s: string)
    requires IsPlain(s)
    ensures EscapeAll(s) == s
  {
    if s != "" {
      assert forall i :: 0 <= i < |s| - 1 ==> s[1..][i] == s[i + 1];
      PlainIsItself(s[1..]);
    }
  }

  lemma PlainQuotes(s: string)
    requires IsPlain(s)
    ensures Quote(s) == "\"" + s + "\""
  {
    PlainIsItself(s);
  }

  lemma FirstComesFirst(k: string, keys: set<string>)
    requires IsFirst(k, keys)
    ensures InOrder(keys) == [k] + InOrder(keys - {k})
  {
    forall j | IsFirst(j, keys) ensures j == k { FirstIsUnique(j, k, keys); }
  }

  lemma OneKey(k: string)
    ensures InOrder({k}) == [k]
  {
    FirstComesFirst(k, {k});
    assert {k} - {k} == {};
  }

  /** One member of a JSON object, the key unescaped. */
  function Member(key: string, value: string): string {
    "\"" + key + "\":" + value
  }

  lemma PrintsMemberFirst(v: Json, keys: seq<string>)
    requires v.Obj? && keys != [] && (forall k <- keys :: k in v.fields) && IsPlain(keys[0])
    ensures PrintFields(v, keys)
         == Member(keys[0], Print(v.fields[keys[0]])) + (if |keys| == 1 then "" else "," + PrintFields(v, keys[1..]))
  {
    PlainQuotes(keys[0]);
    hide Quote, Print;
    var k, value := keys[0], Print(v.fields[keys[0]]);
    assert "\"" + k + "\"" + ":" == "\"" + k + "\":";
    if |keys| == 1 {
      assert PrintFields(v, keys[1..]) == "";
    }
  }

  lemma PrintsOneMember(v: Json, key: string)
    requires v.Obj? && v.fields.Keys == {key} && IsPlain(key)
    ensures Print(v) == "{" + Member(key, Print(v.fields[key])) + "}"
  {
    OneKey(key);
    PrintsMemberFirst(v, [key]);
    hide InOrder, Quote, PrintFields, Member;
  }

  lemma ErrorKeysInOrder()
    ensures InOrder({"code", "message", "metadata"}) == ["code", "message", "metadata"]
  {
    ErrorKeysAscend();
    hide *;
    ThreeInOrder("code", "message", "metadata");
  }

  lemma ErrorKeysAscend()
    ensures Before("code", "message") && Before("message", "metadata")
  {
    assert "message"[..2] == "metadata"[..2];
    BeforeAt("code", "message", 0);
    BeforeAt("message", "metadata", 2);
  }

  lemma ThreeInOrder(a: string, b: string, c: string)
    requires Before(a, b) && Before(b, c)
    ensures InOrder({a, b, c}) == [a, b, c]
  {
    BeforeIsTransitive(a, b, c);
    BeforeIsTotal(a, b);
    BeforeIsTotal(b, c);
    BeforeIsTotal(a, c);
    hide InOrder, Before;
    assert IsFirst(a, {a, b, c}) && IsFirst(b, {b, c});
    FirstComesFirst(a, {a, b, c});
    FirstComesFirst(b, {b, c});
    OneKey(c);
    assert {a, b, c} - {a} == {b, c} && {b, c} - {b} == {c};
  }

  lemma BeforeAt(a: string, b: string, i: nat)
    requires DivergesAt(a, b, i)
    ensures Before(a, b)
  {
    BeforeDiverges(a, b);
  }

  lemma PrintsThreeMembers(v: Json, a: string, b: string, c: string)
    requires v.Obj? && v.fields.Keys == {a, b, c} && InOrder({a, b, c}) == [a, b, c]
    requires IsPlain(a) && IsPlain(b) && IsPlain(c)
    ensures Print(v)
         == "{" + (Member(a, Print(v.fields[a])) + ","
                   + (Member(b, Print(v.fields[b])) + "," + Member(c, Print(v.fields[c])))) + "}"
  {
    hide *;
    PrintsInOrder(v, [a, b, c]);
    FirstOfThree(v, a, b, c);
    LastTwo(v, b, c);
  }

  lemma PrintsInOrder(v: Json, keys: seq<string>)
    requires v.Obj? && keys == InOrder(v.fields.Keys)
    ensures Print(v) == "{" + PrintFields(v, keys) + "}"
  {}

  lemma FirstOfThree(v: Json, a: string, b: string, c: string)
    requires v.Obj? && a in v.fields && b in v.fields && c in v.fields && IsPlain(a)
    ensures PrintFields(v, [a, b, c]) == Member(a, Print(v.fields[a])) + "," + PrintFields(v, [b, c])
  {
    hide *;
    assert [a, b, c][1..] == [b, c];
    PrintsMemberFirst(v, [a, b, c]);
    Regroup(Member(a, Print(v.fields[a])), ",", PrintFields(v, [b, c]));
  }

  lemma LastTwo(v: Json, b: string, c: string)
    requires v.Obj? && b in v.fields && c in v.fields && IsPlain(b) && IsPlain(c)
    ensures PrintFields(v, [b, c]) == Member(b, Print(v.fields[b])) + "," + Member(c, Print(v.fields[c]))
  {
    hide *;
    assert [b, c][1..] == [c];
    PrintsMemberFirst(v, [b, c]);
    PrintsMemberFirst(v, [c]);
    Regroup(Member(b, Print(v.fields[b])), ",", PrintFields(v, [c]));
  }

  /** The error object around a code, a message and the model. */
  function ErrorOf(code: string, message: string, model: string): Json {
    Obj(map["code" := Str(code), "message" := Str(message), "metadata" := Obj(map["model" := Str(model)])])
  }

  lemma PrintsErrorOf(code: string, message: string, model: string)
    requires IsPlain(code) && IsPlain(message)
    ensures Print(ErrorOf(code, message, model))
         == "{" + (Member("code", "\"" + code + "\"") + ","
                   + (Member("message", "\"" + message + "\"") + ","
                      + Member("metadata", "{" + Member("model", Quote(model)) + "}"))) + "}"
  {
    var error := ErrorOf(code, message, model);
    ErrorFields(code, message, model);
    PlainKeys();
    PlainQuotes(code);
    PlainQuotes(message);
    ErrorKeysInOrder();
    hide *;
    PrintsThreeMembers(error, "code", "message", "metadata");
    PrintsOneMember(error.fields["metadata"], "model");
    PrintsString(code);
    PrintsString(message);
    PrintsString(model);
  }

  lemma PrintsString(s: string)
    ensures Print(Str(s)) == Quote(s)
  {}

  lemma PlainKeys()
    ensures IsPlain("code") && IsPlain("message") && IsPlain("metadata") && IsPlain("model") && IsPlain("error")
  {
    PlainJoins("mess", "age");
    PlainJoins("meta", "data");
  }

  lemma PlainJoins(a: string, b: string)
    requires IsPlain(a) && IsPlain(b)
    ensures IsPlain(a + b)
  {}

  lemma ErrorFields(code: string, message: string, model: string)
    ensures var error := ErrorOf(code, message, model);
            && error.Obj? && error.fields.Keys == {"code", "message", "metadata"}
            && error.fields["code"] == Str(code) && error.fields["message"] == Str(message)
            && error.fields["metadata"] == Obj(map["model" := Str(model)])
            && error.fields["metadata"].fields.Keys == {"model"}
            && error.fields["metadata"].fields["model"] == Str(model)
  {}

  /** What every client of a failed stream reads last: the keys stand in byte order, only the model may be escaped. */
  lemma GenericErrorText(model: string)
    ensures Text(ErrorFrames(model))
         == "data: " + ("{" + Member("error",
              "{" + (Member("code", "\"" + "upstream_error" + "\"") + ","
                     + (Member("message", "\"" + "upstream request failed" + "\"") + ","
                        + Member("metadata", "{" + Member("model", Quote(model)) + "}"))) + "}") + "}")
            + "\n\ndata: [DONE]\n\n"
  {
    hide *;
    FailureText(model);
    GenericErrorIs(model);
    PlainTexts();
    PrintsErrorOf("upstream_error", "upstream request failed", model);
    PrintsEnvelope(ErrorOf("upstream_error", "upstream request failed", model));
  }

  lemma FailureText(model: string)
    ensures Text(ErrorFrames(model)) == "data: " + Print(GenericError(model)) + "\n\ndata: [DONE]\n\n"
  {
    ErrorText(model);
  }

  lemma GenericErrorIs(model: string)
    ensures GenericError(model) == Obj(map["error" := ErrorOf("upstream_error", "upstream request failed", model)])
  {}

  lemma PlainTexts()
    ensures IsPlain("upstream_error") && IsPlain("upstream request failed")
  {
    PlainJoins("upstream", "_error");
    PlainJoins("upstream", " request");
    PlainJoins("upstream" + " request", " failed");
  }

  lemma PrintsEnvelope(error: Json)
    ensures Print(Obj(map["error" := error])) == "{" + Member("error", Print(error)) + "}"
  {
    PlainKeys();
    var outer := Obj(map["error" := error]);
    assert outer.fields.Keys == {"error"} && outer.fields["error"] == error;
    hide *;
    PrintsOneMember(outer, "error");
  }
}
