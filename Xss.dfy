/**
 * The form-request sanitiser: a request wrapper whose parameter and header
 * getters pass every value through an HTML sanitiser, unless the first XSS
 * rule whose path pattern matches the request path lists that name as
 * allowed, in which case the raw value is returned.
 *
 * The sanitiser itself (an HTML parser keeping text only) is a parameter.
 */
module XssSanitizing {
  import opened Wrappers
  import AntMatch
  import Http

  /** A configured rule: a path pattern, an ignore flag, and the names allowed to keep HTML. */
  datatype XssRule = XssRule(pathPattern: string, ignore: bool, allowParameters: set<string>)

  /** The rule's path pattern matches the path (Ant style, '/'-separated). */
  predicate Applies(rule: XssRule, path: string) {
    AntMatch.Match(rule.pathPattern, path, '/')
  }

  /** The index of the first rule that applies to the path, or |rules| when none does. */
  function FirstMatch(rules: seq<XssRule>, path: string): (i: nat)
    ensures i <= |rules|
    ensures forall j :: 0 <= j < i ==> !Applies(rules[j], path)
    ensures i < |rules| ==> Applies(rules[i], path)
  {
    if rules == [] then 0
    else if Applies(rules[0], path) then 0
    else
      var k := FirstMatch(rules[1..], path);
      assert forall j :: 0 < j < |rules| ==> rules[j] == rules[1..][j - 1];
      1 + k
  }

  /** The rule the wrapper consults for this path: the first one that applies, if any. */
  function MatchedRule(rules: seq<XssRule>, path: string): (r: Option<XssRule>)
    ensures r.None? <==> forall j :: 0 <= j < |rules| ==> !Applies(rules[j], path)
    ensures r.Some? ==> exists i :: 0 <= i < |rules| && rules[i] == r.value && Applies(rules[i], path)
                                      && forall j :: 0 <= j < i ==> !Applies(rules[j], path)
  {
    var i := FirstMatch(rules, path);
    if i < |rules| then Some(rules[i]) else None
  }

  /**
   * The reference reading of the rules: a name keeps its raw value exactly
   * when some rule applies to the path, no earlier rule applies, and that rule
   * allows the name.
   */
  ghost predicate Allowed(rules: seq<XssRule>, path: string, name: string) {
    exists i :: 0 <= i < |rules| && Applies(rules[i], path) && name in rules[i].allowParameters
                && forall j :: 0 <= j < i ==> !Applies(rules[j], path)
  }

  /** The first applying rule is the only one that can be meant. */
  lemma FirstApplyingRuleUnique(rules: seq<XssRule>, path: string, i: int, k: int)
    requires 0 <= i < |rules| && Applies(rules[i], path) && forall j :: 0 <= j < i ==> !Applies(rules[j], path)
    requires 0 <= k < |rules| && Applies(rules[k], path) && forall j :: 0 <= j < k ==> !Applies(rules[j], path)
    ensures i == k
  {
  }

  /** The reference reading agrees with consulting the first applying rule. */
  lemma AllowedByMatchedRule(rules: seq<XssRule>, path: string, name: string)
    ensures Allowed(rules, path, name) <==>
      MatchedRule(rules, path).Some? && name in MatchedRule(rules, path).value.allowParameters
  {
    var i := FirstMatch(rules, path);
    if Allowed(rules, path, name) {
      var k :| 0 <= k < |rules| && Applies(rules[k], path) && name in rules[k].allowParameters
               && forall j :: 0 <= j < k ==> !Applies(rules[j], path);
      FirstApplyingRuleUnique(rules, path, i, k);
    }
  }

  /**
   * cleanXss: a null value stays null; a value whose name the first applying
   * rule allows is returned as it is; every other value is sanitised,
   * including every value on a path no rule applies to.
   */
  function CleanXss(rules: seq<XssRule>, path: string, clean: string -> string,
                    name: string, value: Option<string>): (r: Option<string>)
    ensures value.None? ==> r.None?
    ensures value.Some? && Allowed(rules, path, name) ==> r == value
    ensures value.Some? && !Allowed(rules, path, name) ==> r == Some(clean(value.value))
  {
    if value.None? then None
    else
      var matched := MatchedRule(rules, path);
      AllowedByMatchedRule(rules, path, name);
      if matched.None? || name !in matched.value.allowParameters then Some(clean(value.value))
      else value
  }

  /** On a path no rule applies to, every value is sanitised. */
  lemma NoRuleSanitisesAll(rules: seq<XssRule>, path: string, clean: string -> string, name: string, v: string)
    requires forall j :: 0 <= j < |rules| ==> !Applies(rules[j], path)
    ensures CleanXss(rules, path, clean, name, Some(v)) == Some(clean(v))
  {
  }

  /**
   * A first applying rule that does not allow the name decides, even when a
   * later applying rule would allow it.
   */
  lemma FirstRuleDecides(rules: seq<XssRule>, path: string, clean: string -> string, name: string, v: string)
    requires |rules| >= 2 && Applies(rules[0], path) && name !in rules[0].allowParameters
    requires Applies(rules[1], path) && name in rules[1].allowParameters
    ensures CleanXss(rules, path, clean, name, Some(v)) == Some(clean(v))
  {
    if Allowed(rules, path, name) {
      var i :| 0 <= i < |rules| && Applies(rules[i], path) && name in rules[i].allowParameters
               && forall j :: 0 <= j < i ==> !Applies(rules[j], path);
      FirstApplyingRuleUnique(rules, path, i, 0);
    }
  }

  /** Rules that differ only in their ignore flags give every value the same treatment. */
  lemma IgnoreFlagHasNoEffect(rules: seq<XssRule>, others: seq<XssRule>, path: string, clean: string -> string,
                              name: string, value: Option<string>)
    requires |rules| == |others|
    requires forall i :: 0 <= i < |rules| ==>
      others[i].pathPattern == rules[i].pathPattern && others[i].allowParameters == rules[i].allowParameters
    ensures CleanXss(rules, path, clean, name, value) == CleanXss(others, path, clean, name, value)
  {
    assert forall i :: 0 <= i < |rules| ==> (Applies(rules[i], path) <==> Applies(others[i], path));
    if Allowed(rules, path, name) {
      var i :| 0 <= i < |rules| && Applies(rules[i], path) && name in rules[i].allowParameters
               && forall j :: 0 <= j < i ==> !Applies(rules[j], path);
      assert Allowed(others, path, name);
    }
    if Allowed(others, path, name) {
      var i :| 0 <= i < |others| && Applies(others[i], path) && name in others[i].allowParameters
               && forall j :: 0 <= j < i ==> !Applies(others[j], path);
      assert Allowed(rules, path, name);
    }
  }

  /**
   * The wrapper around one request: its parameters (a present name maps to
   * its value array, which the container may give as null), the configured
   * rules, the path the rules are matched against, and the sanitiser.
   */
  class XssRequestWrapper {
    const request: Http.Request
    const parameters: map<string, Option<seq<string>>>
    const rules: seq<XssRule>
    const currentPath: string
    const clean: string -> string

    constructor (request: Http.Request, parameters: map<string, Option<seq<string>>>, rules: seq<XssRule>,
                 currentPath: string, clean: string -> string)
      ensures this.request == request && this.parameters == parameters && this.rules == rules
      ensures this.currentPath == currentPath && this.clean == clean
    {
      this.request := request;
      this.parameters := parameters;
      this.rules := rules;
      this.currentPath := currentPath;
      this.clean := clean;
    }

    /** What the wrapper returns for one present value under this name. */
    function Cleaned(name: string, v: string): (r: string)
      ensures Allowed(rules, currentPath, name) ==> r == v
      ensures !Allowed(rules, currentPath, name) ==> r == clean(v)
    {
      CleanXss(rules, currentPath, clean, name, Some(v)).value
    }

    /** The underlying request's values for a name, null when it has none. */
    function RawValues(name: string): Option<seq<string>> {
      if name in parameters then parameters[name] else None
    }

    /**
     * getParameter: the first value of the underlying request, cleaned; null
     * when the name has no value.
     */
    function GetParameter(name: string): (r: Option<string>)
      ensures r.Some? <==> RawValues(name).Some? && |RawValues(name).value| > 0
      ensures r.Some? ==> r.value == Cleaned(name, RawValues(name).value[0])
    {
      var raw := RawValues(name);
      CleanXss(rules, currentPath, clean, name,
               if raw.Some? && |raw.value| > 0 then Some(raw.value[0]) else None)
    }

    /** getHeader: the header cleaned under its own name, as if the name were a parameter's. */
    function GetHeader(name: string): (r: Option<string>)
      ensures r.Some? <==> name in request.headers
      ensures r.Some? ==> r.value == Cleaned(name, request.headers[name])
    {
      CleanXss(rules, currentPath, clean, name, Http.Header(request, name))
    }

    /** A new array as long as the values, each element cleaned under the name. */
    method CleanValues(name: string, values: seq<string>) returns (encoded: seq<string>)
      ensures |encoded| == |values|
      ensures forall i :: 0 <= i < |values| ==> encoded[i] == Cleaned(name, values[i])
    {
      var encodedValues := new string[|values|];
      for i := 0 to |values|
        invariant forall k :: 0 <= k < i ==> encodedValues[k] == Cleaned(name, values[k])
      {
        encodedValues[i] := CleanXss(rules, currentPath, clean, name, Some(values[i])).value;
      }
      encoded := encodedValues[..];
    }

    /** getParameterValues: null for a name without values, otherwise every value cleaned, in order. */
    method GetParameterValues(name: string) returns (r: Option<seq<string>>)
      ensures r.Some? <==> RawValues(name).Some?
      ensures r.Some? ==> |r.value| == |RawValues(name).value|
                          && forall i :: 0 <= i < |r.value| ==> r.value[i] == Cleaned(name, RawValues(name).value[i])
    {
      var values := RawValues(name);
      if values.None? {
        return None;
      }
      var encoded := CleanValues(name, values.value);
      r := Some(encoded);
    }

    /** The names whose value array is not null. */
    ghost function PresentNames(): set<string> {
      set k | k in parameters && parameters[k].Some?
    }

    /**
     * getParameterMap: a name whose value array is null is dropped; every
     * other name maps to its values, each cleaned under that name.
     */
    method GetParameterMap() returns (r: map<string, seq<string>>)
      ensures r.Keys == PresentNames()
      ensures forall k :: k in r ==> (|r[k]| == |parameters[k].value|
                && forall i :: 0 <= i < |r[k]| ==> r[k][i] == Cleaned(k, parameters[k].value[i]))
    {
      r := map[];
      var pending := parameters.Keys;
      while pending != {}
        invariant pending <= parameters.Keys
        invariant r.Keys == set k | k in parameters && k !in pending && parameters[k].Some?
        invariant forall k :: k in r ==> (|r[k]| == |parameters[k].value|
                    && forall i :: 0 <= i < |r[k]| ==> r[k][i] == Cleaned(k, parameters[k].value[i]))
        decreases pending
      {
        var name :| name in pending;
        var values := parameters[name];
        if values.Some? {
          var encoded := CleanValues(name, values.value);
          r := r[name := encoded];
        }
        pending := pending - {name};
      }
    }
  }

  /** Every value of the parameter map is what getParameterValues returns for its name. */
  lemma MapAgreesWithValues(w: XssRequestWrapper, m: map<string, seq<string>>, name: string)
    requires m.Keys == w.PresentNames()
    requires forall k :: k in m ==> (|m[k]| == |w.parameters[k].value|
               && forall i :: 0 <= i < |m[k]| ==> m[k][i] == w.Cleaned(k, w.parameters[k].value[i]))
    ensures name in m <==> w.RawValues(name).Some?
    ensures name in m ==> |m[name]| > 0 ==> Some(m[name][0]) == w.GetParameter(name)
  {
  }

  /** A header named in the applying rule's allow list reaches the handler raw. */
  lemma AllowedHeaderPassesRaw(w: XssRequestWrapper, name: string)
    requires name in w.request.headers
    requires 0 < |w.rules| && Applies(w.rules[0], w.currentPath) && name in w.rules[0].allowParameters
    ensures w.GetHeader(name) == Some(w.request.headers[name])
  {
    assert Allowed(w.rules, w.currentPath, name);
  }
}

/**
 * The XSS filter: GET requests and JSON requests go down the chain as they
 * are; every other request goes down wrapped, matched against its request
 * URI. The filter never rejects and runs the chain exactly once.
 */
module XssFiltering {
  import opened Wrappers
  import JavaStrings
  import Http
  import opened XssSanitizing

  const JsonMediaType := "application/json"

  /** The request handed to the chain: the original, or the wrapper over this path. */
  datatype Passed = Original | Wrapped(currentPath: string)

  /** doFilterInternal: which request the one call down the chain receives. */
  function DoFilterInternal(req: Http.Request): (p: Passed)
    ensures p.Original? <==> JavaStrings.EqualsIgnoreCase(req.httpMethod, "GET")
                             || (req.contentType.Some? && JavaStrings.Contains(req.contentType.value, JsonMediaType))
    ensures p.Wrapped? ==> p.currentPath == req.uri
  {
    if JavaStrings.EqualsIgnoreCase(req.httpMethod, "GET") then Original
    else if req.contentType.Some? && JavaStrings.Contains(req.contentType.value, JsonMediaType) then Original
    else Wrapped(req.uri)
  }

  /** The value the handler reads for a parameter, through whichever request it was given. */
  function SeenParameter(req: Http.Request, rules: seq<XssRule>, clean: string -> string,
                         name: string, raw: Option<string>): (r: Option<string>)
    ensures DoFilterInternal(req).Original? ==> r == raw
    ensures DoFilterInternal(req).Wrapped? ==> r == CleanXss(rules, req.uri, clean, name, raw)
  {
    match DoFilterInternal(req) {
      case Original => raw
      case Wrapped(path) => CleanXss(rules, path, clean, name, raw)
    }
  }

  /** A GET in any letter case keeps its query parameters raw. */
  lemma LowerCaseGetKeepsRaw(req: Http.Request, rules: seq<XssRule>, clean: string -> string, name: string, v: string)
    requires req.httpMethod == "get"
    ensures SeenParameter(req, rules, clean, name, Some(v)) == Some(v)
  {
    assert JavaStrings.ToLower("get") == JavaStrings.ToLower("GET");
  }

  /** A form POST on a path no rule applies to has its parameters sanitised. */
  lemma FormPostSanitised(req: Http.Request, rules: seq<XssRule>, clean: string -> string, name: string, v: string)
    requires req.httpMethod == "POST" && req.contentType == Some("application/x-www-form-urlencoded")
    requires forall j :: 0 <= j < |rules| ==> !Applies(rules[j], req.uri)
    ensures SeenParameter(req, rules, clean, name, Some(v)) == Some(clean(v))
  {
    assert JavaStrings.ToLower("POST") != JavaStrings.ToLower("GET");
    var ct := "application/x-www-form-urlencoded";
    forall i: nat ensures !JavaStrings.OccursAt(ct, JsonMediaType, i) {
      if i + |JsonMediaType| <= |ct| {
        assert ct[i..i + |JsonMediaType|][12] != JsonMediaType[12];
      }
    }
  }

  /** A POST without a content type is wrapped. */
  lemma UntypedPostWrapped(req: Http.Request)
    requires req.httpMethod == "POST" && req.contentType.None?
    ensures DoFilterInternal(req) == Wrapped(req.uri)
  {
    assert JavaStrings.ToLower("POST") != JavaStrings.ToLower("GET");
  }

  /** A JSON body with a charset parameter still skips the wrapper. */
  lemma JsonWithCharsetSkips(req: Http.Request)
    requires req.contentType == Some("application/json;charset=UTF-8")
    ensures DoFilterInternal(req) == Original
  {
    assert JavaStrings.OccursAt(req.contentType.value, JsonMediaType, 0);
  }

  /** The media-type test is case-sensitive: an upper-case JSON type on a POST is wrapped. */
  lemma UpperCaseJsonWrapped(req: Http.Request)
    requires req.httpMethod == "POST" && req.contentType == Some("APPLICATION/JSON")
    ensures DoFilterInternal(req) == Wrapped(req.uri)
  {
    assert JavaStrings.ToLower("POST") != JavaStrings.ToLower("GET");
    var ct := "APPLICATION/JSON";
    forall i: nat ensures !JavaStrings.OccursAt(ct, JsonMediaType, i) {
      if i + |JsonMediaType| <= |ct| {
        assert ct[i..i + |JsonMediaType|][0] != JsonMediaType[0];
      }
    }
  }
}
