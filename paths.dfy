/**
 * Event names and subscription patterns are dot-separated; a path is the sequence of their
 * components. Publishing requires every component to be non-empty, subscribing does not
 * (an empty component is a wildcard).
 */
module Paths {
  import opened Base

  /** `name.split(".")`: the components between the dots, never an empty sequence. */
  function Split(s: string): (r: seq<string>)
    ensures |r| >= 1
    ensures forall i :: 0 <= i < |r| ==> '.' !in r[i]
    decreases |s|
  {
    if s == [] then [""]
    else if s[0] == '.' then [""] + Split(s[1..])
    else
      var t := Split(s[1..]);
      [[s[0]] + t[0]] + t[1..]
  }

  /** The inverse of Split: the components put back together with dots between them. */
  function Join(parts: seq<string>): string
    requires |parts| >= 1
  {
    if |parts| == 1 then parts[0] else parts[0] + "." + Join(parts[1..])
  }

  predicate NoEmptyComponent(path: seq<string>) {
    forall i :: 0 <= i < |path| ==> path[i] != ""
  }

  /** Two dots next to each other somewhere in the name. */
  predicate DoubleDot(s: string) {
    exists i :: 0 <= i < |s| - 1 && s[i] == '.' && s[i + 1] == '.'
  }

  /** A name that splits into at least one empty component. */
  predicate MalformedName(name: string) {
    name == [] || name[0] == '.' || name[|name| - 1] == '.' || DoubleDot(name)
  }

  /** What splitPath computes: the path of a publishable name, or the BadEventName failure. */
  function EventPath(name: string): Result<seq<string>> {
    var path := Split(name);
    if NoEmptyComponent(path) then Ok(path) else Err(BadEventName)
  }

  /** splitPath: splits the name and rejects it when a component is empty. */
  method SplitPath(name: string) returns (r: Result<seq<string>>)
    ensures r == EventPath(name)
  {
    var path := Split(name);
    for k := 0 to |path|
      invariant forall i :: 0 <= i < k ==> path[i] != ""
    {
      if path[k] == "" {
        return Err(BadEventName);
      }
    }
    return Ok(path);
  }

  /** Joining the components of a split name gives the name back. */
  lemma {:induction false} JoinSplit(s: string)
    ensures Join(Split(s)) == s
    decreases |s|
  {
    if s == [] {
    } else if s[0] == '.' {
      JoinSplit(s[1..]);
      assert s == "." + s[1..];
    } else {
      var t := Split(s[1..]);
      JoinSplit(s[1..]);
      if |t| == 1 {
        assert s == [s[0]] + s[1..];
      } else {
        calc {
          Join(Split(s));
          ([s[0]] + t[0]) + "." + Join(t[1..]);
          [s[0]] + (t[0] + "." + Join(t[1..]));
          [s[0]] + Join(t);
          s;
        }
      }
    }
  }

  /** Split is injective: different names never share a path. */
  lemma SplitInjective(s: string, u: string)
    requires Split(s) == Split(u)
    ensures s == u
  {
    JoinSplit(s);
    JoinSplit(u);
  }

  lemma {:induction false} SplitDotFreePrefix(a: string, rest: string)
    requires '.' !in a
    ensures Split(a + rest) == [a + Split(rest)[0]] + Split(rest)[1..]
    decreases |a|
  {
    if a != [] {
      var r := Split(rest);
      SplitDotFreePrefix(a[1..], rest);
      assert a[0] in a;
      assert (a + rest)[0] == a[0] && (a + rest)[1..] == a[1..] + rest;
      var t := Split(a[1..] + rest);
      assert t == [a[1..] + r[0]] + r[1..];
      assert Split(a + rest) == [[a[0]] + t[0]] + t[1..];
      assert [a[0]] + (a[1..] + r[0]) == a + r[0];
      assert Split(a + rest) == [a + r[0]] + r[1..];
    } else {
      var r := Split(rest);
      assert a + rest == rest && a + r[0] == r[0];
      assert r == [r[0]] + r[1..];
    }
  }

  /** Splitting dot-free components joined with dots gives the components back. */
  lemma {:induction false} SplitJoin(parts: seq<string>)
    requires |parts| >= 1
    requires forall i :: 0 <= i < |parts| ==> '.' !in parts[i]
    ensures Split(Join(parts)) == parts
    decreases |parts|
  {
    if |parts| == 1 {
      SplitDotFreePrefix(parts[0], "");
      assert parts[0] + "" == parts[0];
    } else {
      var rest := "." + Join(parts[1..]);
      SplitJoin(parts[1..]);
      SplitDotFreePrefix(parts[0], rest);
      assert rest[0] == '.' && rest[1..] == Join(parts[1..]);
      assert Split(rest) == [""] + parts[1..];
      assert Join(parts) == parts[0] + rest;
      assert parts[0] + "" == parts[0];
      assert Split(Join(parts)) == [parts[0]] + parts[1..];
    }
  }

  /** The first component is empty exactly when the name is empty or starts with a dot. */
  lemma {:induction false} FirstComponentEmpty(s: string)
    ensures Split(s)[0] == "" <==> (s == [] || s[0] == '.')
  {
  }

  /** A later component is empty exactly when the name ends with a dot or holds two dots in a row. */
  lemma {:induction false} LaterComponentEmpty(s: string)
    ensures (exists j :: 1 <= j < |Split(s)| && Split(s)[j] == "")
        <==> (s != [] && (s[|s| - 1] == '.' || DoubleDot(s)))
    decreases |s|
  {
    if s == [] {
    } else {
      var u := s[1..];
      var t := Split(u);
      LaterComponentEmpty(u);
      FirstComponentEmpty(u);
      if u != [] {
        assert s[|s| - 1] == u[|u| - 1];
        DoubleDotShift(s);
      } else {
        assert !DoubleDot(s);
      }
      if s[0] == '.' {
        assert Split(s) == [""] + t;
        assert (exists j :: 1 <= j < |Split(s)| && Split(s)[j] == "")
            <==> (exists j :: 0 <= j < |t| && t[j] == "") by {
          forall j | 1 <= j < |Split(s)| ensures Split(s)[j] == t[j - 1] { }
          forall j | 0 <= j < |t| ensures t[j] == Split(s)[j + 1] { }
        }
      } else {
        assert Split(s) == [[s[0]] + t[0]] + t[1..];
        assert (exists j :: 1 <= j < |Split(s)| && Split(s)[j] == "")
            <==> (exists j :: 1 <= j < |t| && t[j] == "") by {
          forall j | 1 <= j < |Split(s)| ensures Split(s)[j] == t[j] { }
        }
      }
    }
  }

  lemma DoubleDotShift(s: string)
    requires |s| >= 2
    ensures DoubleDot(s) <==> (s[0] == '.' && s[1] == '.') || DoubleDot(s[1..])
  {
  }

  /**
   * Publish validation: a name is refused with BadEventName exactly when it is empty, starts or
   * ends with a dot, or holds two dots in a row; otherwise its path is its split.
   */
  lemma EventPathRejects(name: string)
    ensures EventPath(name).Err? <==> MalformedName(name)
    ensures EventPath(name).Err? ==> EventPath(name).kind == BadEventName
    ensures EventPath(name).Ok? ==> EventPath(name).value == Split(name)
  {
    var path := Split(name);
    FirstComponentEmpty(name);
    LaterComponentEmpty(name);
    if !NoEmptyComponent(path) {
      var j :| 0 <= j < |path| && path[j] == "";
      if j == 0 { } else { }
    }
  }
}
