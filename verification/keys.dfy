/**
 * Lookup keys: the request's path and method joined by a double underscore
 * (src/models/Mock.js:129-131).
 * (`method` is a Dafny keyword, so the request method is called `verb` throughout.)
 * A field that is `undefined` renders as the text "undefined", as a JavaScript
 * template literal does.
 */
module Keys {
  import opened Options
  import Json

  const Separator: string := "__"

  /** How a template literal renders a possibly-undefined string field. */
  function Render(field: Option<string>): string {
    match field
    case Some(s) => s
    case None => "undefined"
  }

  function Join(path: string, verb: string): string {
    path + Separator + verb
  }

  /**
   * `_generateKey`: the rendered path, then the separator, then the rendered method
   * (see KeyOfSplits).
   */
  function KeyOf(path: Option<string>, verb: Option<string>): (k: string)
    ensures |k| == |Render(path)| + |Separator| + |Render(verb)|
  {
    Join(Render(path), Render(verb))
  }

  /** The key splits back into the rendered path, the separator and the rendered method. */
  lemma KeyOfSplits(path: Option<string>, verb: Option<string>)
    ensures KeyOf(path, verb)[..|Render(path)|] == Render(path)
    ensures KeyOf(path, verb)[|Render(path)|..|Render(path)| + |Separator|] == Separator
    ensures KeyOf(path, verb)[|Render(path)| + |Separator|..] == Render(verb)
  {
  }

  /** On a fixed path the key determines the method, and conversely. */
  lemma SamePathKeyDeterminesMethod(path: string, m1: string, m2: string)
    ensures Join(path, m1) == Join(path, m2) <==> m1 == m2
  {
    if Join(path, m1) == Join(path, m2) {
      assert m1 == Join(path, m1)[|path| + 2..];
      assert m2 == Join(path, m2)[|path| + 2..];
    }
  }

  /** Keys are injective as long as neither method contains an underscore. */
  lemma JoinInjective(p1: string, m1: string, p2: string, m2: string)
    requires Join(p1, m1) == Join(p2, m2)
    requires '_' !in m1 && '_' !in m2
    ensures p1 == p2 && m1 == m2
  {
    var k := Join(p1, m1);
    // A longer second method would swallow the separator's second '_'.
    if |m1| < |m2| {
      SeparatorInsideLongerMethod(p1, m1, p2, m2);
      assert false;
    } else if |m2| < |m1| {
      SeparatorInsideLongerMethod(p2, m2, p1, m1);
      assert false;
    }
    assert p1 == k[..|p1|] == p2;
    assert m1 == k[|p1| + 2..] == m2;
  }

  /** If two keys agree and the second method is longer, it contains the first key's separator. */
  lemma SeparatorInsideLongerMethod(p1: string, m1: string, p2: string, m2: string)
    requires Join(p1, m1) == Join(p2, m2)
    requires |m1| < |m2|
    ensures '_' in m2
  {
    var k := Join(p1, m1);
    var q := |p1| + 1;
    assert k[q] == '_';
    assert k[q] == m2[q - |p2| - 2];
  }

  /** Without that restriction two different (path, method) pairs share a key. */
  lemma JoinNotInjective()
    ensures Join("/a", "b__c") == Join("/a__b", "c")
  {
  }

  /** A missing method and the literal method "undefined" share a key. */
  lemma MissingMethodCollides(path: Option<string>)
    ensures KeyOf(path, None) == KeyOf(path, Some("undefined"))
  {
  }

  /** A key always contains an underscore, so no underscore-free name is a key. */
  lemma KeyNotUnderscoreFree(path: string, verb: string, name: string)
    requires '_' !in name
    ensures Join(path, verb) != name
  {
    assert Join(path, verb)[|path|] == '_';
  }

  /**
   * A key of the form "__<w>__" with a non-empty, underscore-free `w` splits only
   * with an empty path or an empty method.
   */
  lemma KeyFramedBySeparators(path: string, verb: string, w: string)
    requires w != [] && '_' !in w
    requires Join(path, verb) == "__" + w + "__"
    ensures path == [] || verb == []
  {
    if path != [] && verb != [] {
      SeparatorAt(path, verb);
      assert false;
    }
  }

  lemma SeparatorAt(path: string, verb: string)
    ensures Join(path, verb)[|path|] == '_' && Join(path, verb)[|path| + 1] == '_'
  {
  }

  /**
   * A key naming a property every object inherits needs an empty path or an empty
   * method: "__proto__" splits only as "" + "__" + "proto__" or "__proto" + "__" + "".
   */
  lemma PrototypeKeySplit(path: string, verb: string)
    requires Join(path, verb) in Json.ObjectPrototypeNames
    ensures path == [] || verb == []
  {
    var k := Join(path, verb);
    if k == "__proto__" {
      KeyFramedBySeparators(path, verb, "proto");
    } else if k == "__defineGetter__" {
      KeyFramedBySeparators(path, verb, "defineGetter");
    } else if k == "__defineSetter__" {
      KeyFramedBySeparators(path, verb, "defineSetter");
    } else if k == "__lookupGetter__" {
      KeyFramedBySeparators(path, verb, "lookupGetter");
    } else if k == "__lookupSetter__" {
      KeyFramedBySeparators(path, verb, "lookupSetter");
    } else {
      UnderscoreFreePrototypeNames();
      KeyNotUnderscoreFree(path, verb, k);
    }
  }

  /** The inherited names of the form "__<w>__"; the other seven contain no underscore. */
  const FramedPrototypeNames: set<string> :=
    {"__proto__", "__defineGetter__", "__defineSetter__", "__lookupGetter__", "__lookupSetter__"}

  lemma UnderscoreFreePrototypeNames()
    ensures forall name :: name in Json.ObjectPrototypeNames ==> name in FramedPrototypeNames || '_' !in name
  {
  }
}
