/**
 * Route templates such as "/users/{id}/posts" compiled into segments, and
 * the two-pass matcher that checks a URL path against them and binds the
 * named segments into the parameter bag.
 */
module ParameterizedPaths {
  import opened Strings

  /** The parameter bag a match writes into: name to URL text, last write wins. */
  type Query = map<string, string>

  const Slash: set<char> := {'/'}
  const Braces: set<char> := {'{', '}'}

  /** A compiled template component: literal text, or a named placeholder. */
  datatype Segment = Const(text: string) | Named(name: string)
  {
    /** The first-pass check: a literal needs equal text, a placeholder takes anything. */
    predicate DoesMatch(part: string)
    {
      match this
      case Const(text) => text == part
      case Named(_) => true
    }

    /** The second-pass write: a placeholder binds its name, a literal writes nothing. */
    function Match(part: string, query: Query): (r: Query)
      ensures Named? ==> name in r && r[name] == part
      ensures forall k :: k in query && !(Named? && k == name) ==> k in r && r[k] == query[k]
      ensures forall k :: k in r ==> k in query || (Named? && k == name)
    {
      match this
      case Const(_) => query
      case Named(name) => query[name := part]
    }
  }

  /** A path with every leading and trailing '/' removed, split on '/'. */
  function Components(path: string): seq<string>
  {
    Split(Trim(path, Slash), '/')
  }

  /** A component starting with '{' is a placeholder named by the component without its braces. */
  function Classify(component: string): Segment
  {
    if StartsWith(component, "{") then Named(Trim(component, Braces)) else Const(component)
  }

  /** Each component classified, in order. */
  function ClassifyAll(components: seq<string>): (r: seq<Segment>)
    ensures |r| == |components|
    ensures forall i :: 0 <= i < |r| ==> r[i] == Classify(components[i])
  {
    if |components| == 0 then [] else [Classify(components[0])] + ClassifyAll(components[1..])
  }

  /** The segments a template compiles to, one per component. */
  function Parse(template: string): seq<Segment>
  {
    ClassifyAll(Components(template))
  }

  /** The first pass succeeds: same number of components, and each one accepted. */
  predicate Matches(segments: seq<Segment>, urlPath: string)
  {
    var parts := Components(urlPath);
    |segments| == |parts| && forall i :: 0 <= i < |parts| ==> segments[i].DoesMatch(parts[i])
  }

  /** The second pass: every segment's Match applied in order, left to right. */
  function BindAll(segments: seq<Segment>, parts: seq<string>, query: Query): Query
    requires |segments| == |parts|
  {
    if |segments| == 0 then query
    else
      var n := |segments| - 1;
      segments[n].Match(parts[n], BindAll(segments[..n], parts[..n], query))
  }

  /** The names of the placeholders among `segments`. */
  function Names(segments: seq<Segment>): set<string>
  {
    set i | 0 <= i < |segments| && segments[i].Named? :: segments[i].name
  }

  class ParameterizedPath {
    const path: string
    const segments: seq<Segment>

    constructor (path: string)
      ensures this.path == path
      ensures segments == Parse(path)
    {
      this.path := path;
      var compiled := ParseSegments(path);
      segments := compiled[..];
    }

    /** Compiles a template, classifying each '/'-separated component into a fresh array. */
    static method ParseSegments(path: string) returns (result: array<Segment>)
      ensures fresh(result)
      ensures result[..] == Parse(path)
    {
      var split := Components(path);
      result := new Segment[|split|];
      for i := 0 to |split|
        invariant forall j :: 0 <= j < i ==> result[j] == Classify(split[j])
      {
        ghost var expected := Classify(split[i]);
        if StartsWith(split[i], "{") {
          result[i] := Named(Trim(split[i], Braces));
        } else {
          result[i] := Const(split[i]);
        }
        assert result[i] == expected;
      }
      assert result[..] == Parse(path);
    }

    /**
     * Matches `urlPath` against the template. Every segment is checked before
     * any is bound, so a rejected path leaves `query` as it was; on success the
     * placeholders are bound in order. `query` is the caller's `ref` argument:
     * `bound` is its value afterwards.
     */
    method TryMatch(urlPath: string, query: Query) returns (ok: bool, bound: Query)
      ensures ok == Matches(segments, urlPath)
      ensures |segments| != |Components(urlPath)| ==> !ok
      ensures !ok ==> bound == query
      ensures ok ==> |segments| == |Components(urlPath)|
      ensures ok ==> bound == BindAll(segments, Components(urlPath), query)
    {
      var urlSegments := Components(urlPath);
      bound := query;
      if |segments| != |urlSegments| {
        return false, bound;
      }
      for i := 0 to |segments|
        invariant forall j :: 0 <= j < i ==> segments[j].DoesMatch(urlSegments[j])
      {
        if !segments[i].DoesMatch(urlSegments[i]) {
          assert !Matches(segments, urlPath);
          return false, bound;
        }
      }
      assert Matches(segments, urlPath);
      for i := 0 to |segments|
        invariant bound == BindAll(segments[..i], urlSegments[..i], query)
      {
        assert segments[..i + 1][..i] == segments[..i];
        assert urlSegments[..i + 1][..i] == urlSegments[..i];
        bound := segments[i].Match(urlSegments[i], bound);
      }
      assert segments[..|segments|] == segments;
      assert urlSegments[..|segments|] == urlSegments;
      return true, bound;
    }
  }

  /**
   * Compiling yields one segment per '/'-separated component of the trimmed
   * template; a component is a placeholder exactly when it starts with '{',
   * and is then named by the component without surrounding braces.
   */
  lemma ParseComponentwise(template: string, i: nat)
    requires i < |Components(template)|
    ensures |Parse(template)| == Count(Trim(template, Slash), '/') + 1
    ensures Parse(template)[i].Named? <==> StartsWith(Components(template)[i], "{")
    ensures Parse(template)[i].Named? ==> Parse(template)[i].name == Trim(Components(template)[i], Braces)
    ensures Parse(template)[i].Const? ==> Parse(template)[i].text == Components(template)[i]
  {
    SplitCount(Trim(template, Slash), '/');
    var components := Components(template);
    assert Parse(template)[i] == Classify(components[i]);
  }

  /** Keys that no placeholder names keep their entry (or absence) through a bind. */
  lemma {:induction false} BindAllKeepsOtherKeys(segments: seq<Segment>, parts: seq<string>, query: Query, k: string)
    requires |segments| == |parts|
    requires k !in Names(segments)
    ensures k in BindAll(segments, parts, query) <==> k in query
    ensures k in query ==> BindAll(segments, parts, query)[k] == query[k]
  {
    if |segments| > 0 {
      var n := |segments| - 1;
      assert Names(segments[..n]) <= Names(segments) by {
        forall x | x in Names(segments[..n]) ensures x in Names(segments) {
          var i :| 0 <= i < n && segments[..n][i].Named? && segments[..n][i].name == x;
          assert segments[i] == segments[..n][i];
        }
      }
      BindAllKeepsOtherKeys(segments[..n], parts[..n], query, k);
      assert !(segments[n].Named? && segments[n].name == k);
    }
  }

  /** Every placeholder's name is bound; with repeated names the last position wins. */
  lemma {:induction false} BindAllLastWins(segments: seq<Segment>, parts: seq<string>, query: Query, j: nat)
    requires |segments| == |parts|
    requires j < |segments| && segments[j].Named?
    requires forall i :: j < i < |segments| ==> !(segments[i].Named? && segments[i].name == segments[j].name)
    ensures segments[j].name in BindAll(segments, parts, query)
    ensures BindAll(segments, parts, query)[segments[j].name] == parts[j]
  {
    var n := |segments| - 1;
    if j < n {
      BindAllLastWins(segments[..n], parts[..n], query, j);
    }
  }

  /** A successful bind adds exactly the placeholder names to the keys. */
  lemma {:induction false} BindAllKeys(segments: seq<Segment>, parts: seq<string>, query: Query)
    requires |segments| == |parts|
    ensures BindAll(segments, parts, query).Keys == query.Keys + Names(segments)
  {
    if |segments| > 0 {
      var n := |segments| - 1;
      BindAllKeys(segments[..n], parts[..n], query);
      assert Names(segments) == Names(segments[..n]) + Names(segments[n..]) by {
        forall x | x in Names(segments)
          ensures x in Names(segments[..n]) + Names(segments[n..])
        {
          var i :| 0 <= i < |segments| && segments[i].Named? && segments[i].name == x;
          if i < n { assert segments[..n][i] == segments[i]; }
          else { assert segments[n..][0] == segments[i]; }
        }
        forall x | x in Names(segments[..n]) ensures x in Names(segments) {
          var i :| 0 <= i < n && segments[..n][i].Named? && segments[..n][i].name == x;
          assert segments[i] == segments[..n][i];
        }
        forall x | x in Names(segments[n..]) ensures x in Names(segments) {
          var i :| 0 <= i < 1 && segments[n..][i].Named? && segments[n..][i].name == x;
          assert segments[n] == segments[n..][i];
        }
      }
      assert Names(segments[n..]) == if segments[n].Named? then {segments[n].name} else {} by {
        assert segments[n..][0] == segments[n];
      }
    }
  }

  /** Leading and trailing slashes are ignored: "//a/b/" has the components of "a/b". */
  lemma ComponentsIgnoreSurroundingSlashes(a: string, path: string, b: string)
    requires forall i :: 0 <= i < |a| ==> a[i] == '/'
    requires forall i :: 0 <= i < |b| ==> b[i] == '/'
    ensures Components(a + path + b) == Components(path)
    ensures Parse(a + path + b) == Parse(path)
    ensures forall segments :: Matches(segments, a + path + b) == Matches(segments, path)
  {
    TrimIgnoresSurrounding(a, path, b, Slash);
  }

  /** The root "/" and the empty path are the same single empty component. */
  lemma RootIsEmptyPath()
    ensures Components("/") == Components("") == [""]
  {
    var root := "/";
    assert TrimStart(root, Slash) == TrimStart(root[1..], Slash) == [];
  }

  /**
   * A component becomes a placeholder exactly when its first character is
   * '{'. A literal keeps the component's text. A placeholder's name is
   * shorter than the component and neither starts nor ends with a brace.
   */
  lemma ClassifyCases(component: string)
    ensures Classify(component).Named? <==> |component| > 0 && component[0] == '{'
    ensures Classify(component).Const? ==> Classify(component).text == component
    ensures match Classify(component)
      case Named(name) =>
        && |name| < |component|
        && (name == [] || (name[0] !in Braces && name[|name| - 1] !in Braces))
      case Const(_) => true
  {
    var open := '{';
    StartsWithChar(component, open);
    TrimShape(component, Braces);
    if |component| > 0 && component[0] == open {
      TrimDropsFirst(component, Braces);
    }
  }

  /** A literal accepts exactly its own text; a placeholder accepts every part, the empty one included. */
  lemma SegmentAcceptance(segment: Segment, part: string)
    ensures segment.Const? ==> (segment.DoesMatch(part) <==> part == segment.text)
    ensures segment.Named? ==> segment.DoesMatch(part) && segment.DoesMatch("")
  {
  }

  /** The empty template is accepted: it compiles to one empty literal, which matches the root. */
  lemma EmptyTemplateAccepted()
    ensures Parse("") == [Const("")]
    ensures Matches(Parse(""), "/") && Matches(Parse(""), "")
  {
    RootIsEmptyPath();
  }

  /** A template of literals only matches exactly the paths that trim to the template's own text. */
  lemma LiteralTemplateMatchesIff(template: string, urlPath: string)
    requires forall i :: 0 <= i < |Parse(template)| ==> Parse(template)[i].Const?
    ensures Matches(Parse(template), urlPath) <==> Trim(urlPath, Slash) == Trim(template, Slash)
  {
    var segments := Parse(template);
    var own := Components(template);
    var parts := Components(urlPath);
    assert forall i :: 0 <= i < |own| ==> segments[i] == Const(own[i]);
    if Matches(segments, urlPath) {
      assert own == parts by {
        forall i | 0 <= i < |own| ensures own[i] == parts[i] {
          assert segments[i].DoesMatch(parts[i]);
        }
      }
      SplitInjective(Trim(urlPath, Slash), Trim(template, Slash), '/');
    }
  }

  /** A path that neither starts nor ends with '/' is its own trimmed form. */
  lemma TrimUntouched(s: string, chars: set<char>)
    requires |s| > 0 && s[0] !in chars && s[|s| - 1] !in chars
    ensures Trim(s, chars) == s
  {
  }

  lemma BindAllOne(s0: Segment, p0: string, query: Query)
    ensures BindAll([s0], [p0], query) == s0.Match(p0, query)
  {
    assert [s0][..0] == [] && [p0][..0] == [];
  }

  lemma BindAllTwo(s0: Segment, s1: Segment, p0: string, p1: string, query: Query)
    ensures BindAll([s0, s1], [p0, p1], query) == s1.Match(p1, s0.Match(p0, query))
  {
    assert [s0, s1][..1] == [s0] && [p0, p1][..1] == [p0];
    BindAllOne(s0, p0, query);
  }

  /** A '/'-free text between two '/'-free texts gives two components. */
  lemma TwoComponents(first: string, second: string)
    requires |first| > 0 && |second| > 0 && '/' !in first && '/' !in second
    ensures Components("/" + first + "/" + second) == [first, second]
  {
    var slash := "/";
    var inner := first + slash + second;
    assert "/" + first + "/" + second == slash + inner;
    LeadingSlashTrimmed(inner);
    SplitPair(first, second, '/');
  }

  /** A path with one leading '/' whose text neither starts nor ends with '/' trims to that text. */
  lemma LeadingSlashTrimmed(inner: string)
    requires |inner| > 0 && inner[0] != '/' && inner[|inner| - 1] != '/'
    ensures Trim("/" + inner, Slash) == inner
  {
    var path := "/" + inner;
    assert TrimStart(inner, Slash) == inner;
    assert TrimEnd(inner, Slash) == inner;
    assert TrimStart(path, Slash) == inner by {
      assert path[0] in Slash && path[1..] == inner;
    }
  }

  /** A braced name compiles to a placeholder of that name. */
  lemma ClassifyPlaceholder(name: string)
    requires |name| > 0 && name[0] !in Braces && name[|name| - 1] !in Braces
    ensures Classify("{" + name + "}") == Named(name)
  {
    TrimIgnoresSurrounding("{", name, "}", Braces);
    TrimUntouched(name, Braces);
  }

  /** "/lit/{name}" compiles to a literal followed by a placeholder. */
  lemma ParseLiteralThenPlaceholder(lit: string, name: string)
    requires |lit| > 0 && '/' !in lit && lit[0] != '{'
    requires |name| > 0 && '/' !in name && name[0] !in Braces && name[|name| - 1] !in Braces
    ensures Parse("/" + lit + "/{" + name + "}") == [Const(lit), Named(name)]
  {
    var placeholder := "{" + name + "}";
    var template := "/" + lit + "/{" + name + "}";
    PlaceholderComponents(lit, name);
    ParseTwo(template, lit, placeholder);
    ClassifyPlaceholder(name);
    ClassifyLiteral(lit);
  }

  lemma PlaceholderComponents(lit: string, name: string)
    requires |lit| > 0 && '/' !in lit
    requires '/' !in name
    ensures Components("/" + lit + "/{" + name + "}") == [lit, "{" + name + "}"]
  {
    var placeholder := "{" + name + "}";
    assert "/" + lit + "/{" + name + "}" == "/" + lit + "/" + placeholder;
    TwoComponents(lit, placeholder);
  }

  lemma ParseTwo(template: string, first: string, second: string)
    requires Components(template) == [first, second]
    ensures Parse(template) == [Classify(first), Classify(second)]
  {
  }

  lemma ClassifyLiteral(lit: string)
    requires |lit| > 0 && lit[0] != '{'
    ensures Classify(lit) == Const(lit)
  {
  }

  /**
   * "/lit/{name}" matches "/lit/value" and binds exactly `name` to `value`
   * (the route `/a/{x}` against the request path `/a/7` binds x to "7").
   */
  lemma LiteralThenPlaceholder(lit: string, name: string, value: string)
    requires |lit| > 0 && '/' !in lit && lit[0] != '{'
    requires |name| > 0 && '/' !in name && name[0] !in Braces && name[|name| - 1] !in Braces
    requires |value| > 0 && '/' !in value
    ensures Matches(Parse("/" + lit + "/{" + name + "}"), "/" + lit + "/" + value)
    ensures BindAll(Parse("/" + lit + "/{" + name + "}"), Components("/" + lit + "/" + value), map[])
              == map[name := value]
  {
    ParseLiteralThenPlaceholder(lit, name);
    TwoComponents(lit, value);
    BindAllTwo(Const(lit), Named(name), lit, value, map[]);
  }

  /** A placeholder accepts the empty component: "{name}" matches "/" and binds `name` to "". */
  lemma PlaceholderMatchesRoot(name: string)
    requires |name| > 0 && '/' !in name && name[0] !in Braces && name[|name| - 1] !in Braces
    ensures Parse("{" + name + "}") == [Named(name)]
    ensures Matches(Parse("{" + name + "}"), "/")
    ensures BindAll(Parse("{" + name + "}"), Components("/"), map[]) == map[name := ""]
  {
    var placeholder := "{" + name + "}";
    RootIsEmptyPath();
    TrimUntouched(placeholder, Slash);
    SplitFree(placeholder, '/');
    ClassifyPlaceholder(name);
    BindAllOne(Named(name), "", map[]);
  }
}
