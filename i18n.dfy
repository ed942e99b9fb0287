/**
 * The translation function `t` of src/i18n/LanguageContext.tsx: a dotted key
 * descends the current language's tree of translations; a key that leads
 * nowhere stands for itself; the `{{name}}` placeholders of the text found
 * are filled from the parameters, first occurrence only, with JavaScript's
 * `String.prototype.replace` rules for `$` in the replacement.
 */
module I18n {
  import opened Wrappers
  import opened Strings

  /** `TranslationNode`: a text, or an object of named children. */
  datatype Node = Leaf(text: string) | Branch(children: map<string, Node>)

  /** The node a path of keys leads to from `node`, if every key is a child of an object on the way. */
  function Lookup(node: Node, path: seq<string>): Option<Node>
    decreases |path|
  {
    if |path| == 0 then Some(node)
    else match node
      case Leaf(_) => None
      case Branch(children) =>
        if path[0] in children then Lookup(children[path[0]], path[1..]) else None
  }

  /** `{{name}}`. */
  function Placeholder(name: string): (p: string)
    ensures |p| == |name| + 4
  {
    "{{" + name + "}}"
  }

  /**
   * The replacement text `String.prototype.replace` inserts for `rep` when the
   * pattern is a string (GetSubstitution, section 22.1.3.19.1 of ECMAScript
   * 2023): `$$` is a dollar sign, `$&` the match, `` $` `` the text before it,
   * `$'` the text after it; any other `$` stands for itself.
   */
  function Expand(rep: string, before: string, matched: string, after: string): string
    decreases |rep|
  {
    if |rep| == 0 then []
    else if rep[0] == '$' && |rep| >= 2 && rep[1] == '$' then "$" + Expand(rep[2..], before, matched, after)
    else if rep[0] == '$' && |rep| >= 2 && rep[1] == '&' then matched + Expand(rep[2..], before, matched, after)
    else if rep[0] == '$' && |rep| >= 2 && rep[1] == '`' then before + Expand(rep[2..], before, matched, after)
    else if rep[0] == '$' && |rep| >= 2 && rep[1] == '\'' then after + Expand(rep[2..], before, matched, after)
    else [rep[0]] + Expand(rep[1..], before, matched, after)
  }

  /** A replacement without a dollar sign is inserted as it is. */
  lemma {:induction false} ExpandLiteral(rep: string, before: string, matched: string, after: string)
    requires '$' !in rep
    ensures Expand(rep, before, matched, after) == rep
    decreases |rep|
  {
    if |rep| > 0 {
      assert '$' !in rep[1..];
      ExpandLiteral(rep[1..], before, matched, after);
    }
  }

  /**
   * `s.replace(pat, rep)` with a string pattern: only the first occurrence is
   * replaced, the text around it is kept; without an occurrence nothing changes.
   */
  function ReplaceFirst(s: string, pat: string, rep: string): (r: string)
    ensures IndexOf(s, pat).None? ==> r == s
    ensures IndexOf(s, pat).Some? ==>
      var i := IndexOf(s, pat).value;
      r == s[..i] + Expand(rep, s[..i], pat, s[i + |pat|..]) + s[i + |pat|..]
  {
    match IndexOf(s, pat)
    case None => s
    case Some(i) => s[..i] + Expand(rep, s[..i], pat, s[i + |pat|..]) + s[i + |pat|..]
  }

  /**
   * The placeholder of a parameter is filled once: where it first occurs, the
   * value (without a dollar sign) stands in its place; the text before and
   * after, later occurrences included, is kept.
   */
  lemma ReplaceFirstFillsOnce(s: string, name: string, value: string)
    requires '$' !in value
    requires IndexOf(s, Placeholder(name)).Some?
    ensures var i := IndexOf(s, Placeholder(name)).value;
      ReplaceFirst(s, Placeholder(name), value) == s[..i] + value + s[i + |name| + 4..]
  {
    var pat := Placeholder(name);
    var i := IndexOf(s, pat).value;
    var after := s[i + |pat|..];
    ExpandLiteral(value, s[..i], pat, after);
    assert ReplaceFirst(s, pat, value) == s[..i] + value + after;
  }

  /** The text after every parameter in order has been substituted (`params` in `Object.entries` order). */
  function Substitute(text: string, params: seq<(string, string)>): string
    decreases |params|
  {
    if |params| == 0 then text
    else
      var last := params[|params| - 1];
      ReplaceFirst(Substitute(text, params[..|params| - 1]), Placeholder(last.0), last.1)
  }

  /** Parameters whose placeholders never occur leave the text as it is. */
  lemma {:induction false} SubstituteAbsent(text: string, params: seq<(string, string)>)
    requires forall j, k :: 0 <= j < |params| ==> !OccursAt(text, Placeholder(params[j].0), k)
    ensures Substitute(text, params) == text
    decreases |params|
  {
    if |params| > 0 {
      SubstituteAbsent(text, params[..|params| - 1]);
      var last := params[|params| - 1];
      assert forall k :: !OccursAt(text, Placeholder(last.0), k);
    }
  }

  /** What `t` returns, from the tree of the current language. */
  function Translate(tree: Node, key: string, params: seq<(string, string)>): (r: Node)
    ensures Lookup(tree, Split(key, '.')).None? ==> r == Leaf(key)
    ensures r.Branch? ==> Lookup(tree, Split(key, '.')) == Some(r)
  {
    match Lookup(tree, Split(key, '.'))
    case None => Leaf(key)
    case Some(Leaf(text)) => Leaf(Substitute(text, params))
    case Some(Branch(children)) => Branch(children)
  }

  /**
   * `t(key, params)`: the loop that descends the tree one key segment at a
   * time, falling back to the key, then the loop that fills the parameters of
   * a text. The result is what the tree holds at the dotted path: the text
   * with its parameters filled in, or the object itself; the key when there is
   * nothing there.
   */
  method T(tree: Node, key: string, params: seq<(string, string)>) returns (r: Node)
    ensures r == Translate(tree, key, params)
  {
    var keys := Split(key, '.');
    var value := tree;
    for i := 0 to |keys|
      invariant Lookup(tree, keys) == Lookup(value, keys[i..])
    {
      assert keys[i..][1..] == keys[i + 1..];
      if value.Branch? && keys[i] in value.children {
        value := value.children[keys[i]];
      } else {
        return Leaf(key);
      }
    }
    if value.Leaf? {
      var text := value.text;
      for j := 0 to |params|
        invariant text == Substitute(value.text, params[..j])
      {
        assert params[..j + 1][..j] == params[..j];
        text := ReplaceFirst(text, Placeholder(params[j].0), params[j].1);
      }
      assert params[..|params|] == params;
      return Leaf(text);
    }
    return value;
  }

  /** The key `a.b.c` descends by `a`, then `b`, then `c`, when no segment holds a dot. */
  lemma DottedKey(tree: Node, path: seq<string>)
    requires |path| >= 1 && forall i :: 0 <= i < |path| ==> '.' !in path[i]
    ensures Translate(tree, Join(path, "."), []) ==
      match Lookup(tree, path)
      case None => Leaf(Join(path, "."))
      case Some(node) => node
  {
    SplitJoin(path, '.');
  }

  /** Without parameters a text is returned as it stands. */
  lemma NoParamsVerbatim(tree: Node, key: string, text: string)
    requires Lookup(tree, Split(key, '.')) == Some(Leaf(text))
    ensures Translate(tree, key, []) == Leaf(text)
  {
  }
}
