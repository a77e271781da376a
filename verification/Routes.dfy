/** Method routing: names as lists of components, and the walk over mounted handlers. */
module Routes {
  import opened Wrappers

  type Name = seq<char>

  const SLASH := '/'

  // ---------------------------------------------------------------------------------------------
  // Components
  // ---------------------------------------------------------------------------------------------

  /** The length of the leading run without slashes. */
  function WordLength(s: Name): (n: nat)
    ensures n <= |s| && (n < |s| ==> s[n] == SLASH) && forall i :: 0 <= i < n ==> s[i] != SLASH
  {
    if s == [] || s[0] == SLASH then 0 else 1 + WordLength(s[1..])
  }

  /** The non-empty pieces between slashes. */
  function Components(s: Name): seq<Name>
    decreases |s|
  {
    if s == [] then []
    else if s[0] == SLASH then Components(s[1..])
    else [s[..WordLength(s)]] + Components(s[WordLength(s)..])
  }

  function Join(cs: seq<Name>): Name {
    if cs == [] then [] else if |cs| == 1 then cs[0] else cs[0] + ([SLASH] + Join(cs[1..]))
  }

  /** Non-empty and without slashes. */
  predicate Word(w: Name) { w != [] && forall i :: 0 <= i < |w| ==> w[i] != SLASH }

  predicate Words(cs: seq<Name>) { forall i :: 0 <= i < |cs| ==> Word(cs[i]) }

  lemma {:induction false} ComponentsAreWords(s: Name)
    ensures Words(Components(s))
    decreases |s|
  {
    if s != [] {
      if s[0] == SLASH { ComponentsAreWords(s[1..]); } else { ComponentsAreWords(s[WordLength(s)..]); }
    }
  }

  lemma WordThen(w: Name, rest: Name)
    requires Word(w) && (rest == [] || rest[0] == SLASH)
    ensures Components(w + rest) == [w] + Components(rest)
  {
    WordLengthThen(w, rest);
    assert (w + rest)[..|w|] == w && (w + rest)[|w|..] == rest;
  }

  lemma {:induction false} WordLengthThen(w: Name, rest: Name)
    requires (forall i :: 0 <= i < |w| ==> w[i] != SLASH) && (rest == [] || rest[0] == SLASH)
    ensures WordLength(w + rest) == |w|
  {
    if w == [] {
      assert w + rest == rest;
    } else {
      assert (w + rest)[0] == w[0] && (w + rest)[1..] == w[1..] + rest;
      WordLengthThen(w[1..], rest);
    }
  }

  /** Splitting undoes joining. */
  lemma {:induction false} SplitJoin(cs: seq<Name>)
    requires Words(cs)
    ensures Components(Join(cs)) == cs
    decreases |cs|
  {
    if |cs| == 1 {
      assert cs[0] + [] == cs[0] && [cs[0]] + [] == cs;
      WordThen(cs[0], []);
    } else if |cs| > 1 {
      var rest := [SLASH] + Join(cs[1..]);
      SplitJoin(cs[1..]);
      WordThen(cs[0], rest);
      assert rest[1..] == Join(cs[1..]);
      assert [cs[0]] + cs[1..] == cs;
    }
  }

  /** What components are: a word is one, and a slash between two names puts the components of the first
      before those of the second. */
  lemma {:induction false} ComponentsOf(a: Name, b: Name)
    ensures Components([]) == []
    ensures Word(a) ==> Components(a) == [a]
    ensures Components(a + [SLASH] + b) == Components(a) + Components(b)
    decreases |a|
  {
    if Word(a) {
      WordThen(a, []);
      assert a + [] == a && [a] + [] == [a];
    }
    var all := a + [SLASH] + b;
    if a == [] {
      assert all == [SLASH] + b && all[1..] == b;
    } else if a[0] == SLASH {
      assert all[1..] == a[1..] + [SLASH] + b;
      ComponentsOf(a[1..], b);
    } else {
      var n := WordLength(a);
      var (w, rest) := (a[..n], a[n..] + [SLASH] + b);
      assert all == w + rest && n > 0;
      WordThen(w, rest);
      ComponentsOf(a[n..], b);
      assert [w] + (Components(a[n..]) + Components(b)) == [w] + Components(a[n..]) + Components(b);
    }
  }

  // ---------------------------------------------------------------------------------------------
  // sanitizeSlashes
  // ---------------------------------------------------------------------------------------------

  /** What the loop still writes for the rest of a name. */
  function Written(s: Name, lastSlash: bool): Name {
    if s == [] then []
    else if s[0] == SLASH then Written(s[1..], true)
    else (if lastSlash then [SLASH] else []) + ([s[0]] + Written(s[1..], false))
  }

  function Stripped(s: Name): Name { if s != [] && s[0] == SLASH then s[1..] else s }

  /** A word is copied as it is. */
  lemma {:induction false} WrittenWord(s: Name)
    requires s != [] && s[0] != SLASH
    ensures WordLength(s) >= 1
    ensures Written(s, false) == s[..WordLength(s)] + Written(s[WordLength(s)..], false)
    decreases |s|
  {
    hide Written;
    var (n, tail) := (WordLength(s), s[1..]);
    assert tail[n - 1..] == s[n..];
    assert s[..n] == [s[0]] + tail[..n - 1];
    var after := Written(s[n..], false);
    OneLetter(s);
    if tail != [] && tail[0] != SLASH {
      WrittenWord(tail);
      assert [s[0]] + (tail[..n - 1] + after) == [s[0]] + tail[..n - 1] + after;
    } else {
      assert n == 1 && tail[..0] == [];
    }
  }

  lemma OneLetter(s: Name)
    requires s != [] && s[0] != SLASH
    ensures Written(s, false) == [s[0]] + Written(s[1..], false)
  {
    assert [] + ([s[0]] + Written(s[1..], false)) == [s[0]] + Written(s[1..], false);
  }

  lemma {:induction false} WrittenSlashes(s: Name, lastSlash: bool)
    requires lastSlash || (s != [] && s[0] == SLASH)
    ensures Written(s, lastSlash) == if Components(s) == [] then [] else [SLASH] + Join(Components(s))
    decreases |s|, 1
  {
    if s != [] {
      if s[0] == SLASH {
        WrittenSlashes(s[1..], true);
      } else {
        WrittenJoins(s);
        OneLetter(s);
      }
    }
  }

  lemma {:induction false} WrittenJoins(s: Name)
    requires s != [] && s[0] != SLASH
    ensures Written(s, false) == Join(Components(s)) && Components(s) != []
    decreases |s|, 0
  {
    WrittenWord(s);
    var n := WordLength(s);
    var rest := Components(s[n..]);
    if n < |s| { WrittenSlashes(s[n..], false); }
    assert Components(s) == [s[..n]] + rest && Components(s)[1..] == rest;
  }

  lemma SanitizedIsJoin(s: Name)
    ensures Stripped(Written(s, false)) == Join(Components(s))
  {
    if s != [] {
      if s[0] == SLASH {
        WrittenSlashes(s, false);
        if Components(s) == [] {} else { assert ([SLASH] + Join(Components(s)))[1..] == Join(Components(s)); }
      } else {
        WrittenJoins(s);
        ComponentsAreWords(s);
        FirstIsNoSlash(Components(s));
      }
    }
  }

  lemma FirstIsNoSlash(cs: seq<Name>)
    requires Words(cs) && cs != []
    ensures Join(cs) != [] && Join(cs)[0] != SLASH
  {
    assert Word(cs[0]);
  }

  /** sanitizeSlashes writes within the storage, and leaves the components joined by single slashes. */
  method SanitizeSlashes(name: Name) returns (r: Name)
    ensures r == Join(Components(name)) && |r| <= |name|
  {
    hide Written, Components, Join;
    var storage := new char[|name|];
    var i, o, lastSlash := 0, 0, false;
    while i < |name|
      invariant 0 <= o <= i <= |name| && (lastSlash ==> o < i)
      invariant storage[..o] + Written(name[i..], lastSlash) == Written(name, false)
    {
      var ch := name[i];
      WrittenStep(storage[..o], name, i, lastSlash);
      if ch == SLASH {
        lastSlash := true;
      } else {
        if lastSlash {
          ghost var was := storage[..o];
          storage[o] := SLASH;
          o := o + 1;
          assert storage[..o] == was + [SLASH];
        }
        ghost var was := storage[..o];
        storage[o] := ch;
        o := o + 1;
        assert storage[..o] == was + [ch];
        lastSlash := false;
      }
      i := i + 1;
    }
    WrittenEnd(storage[..o], name[i..], lastSlash);
    SanitizedIsJoin(name);
    r := storage[..o];
    if |r| > 0 && r[0] == SLASH { r := r[1..]; }
  }

  lemma WrittenStep(t: Name, s: Name, i: nat, lastSlash: bool)
    requires i < |s|
    ensures t + Written(s[i..], lastSlash)
            == if s[i] == SLASH then t + Written(s[i + 1..], true)
               else (if lastSlash then t + [SLASH] else t) + [s[i]] + Written(s[i + 1..], false)
  {
    var (tail, rest) := (s[i..], Written(s[i + 1..], false));
    assert tail[0] == s[i] && tail[1..] == s[i + 1..];
    assert t + ([] + ([s[i]] + rest)) == t + [s[i]] + rest;
    assert t + ([SLASH] + ([s[i]] + rest)) == t + [SLASH] + [s[i]] + rest;
  }

  lemma WrittenEnd(t: Name, s: Name, lastSlash: bool)
    requires |s| == 0
    ensures t + Written(s, lastSlash) == t
  {}

  function Sanitized(s: Name): Name { Join(Components(s)) }

  /** Sanitizing twice is sanitizing once, and the components are all that counts. */
  lemma SanitizeTwice(s: Name, t: Name)
    ensures Sanitized(Sanitized(s)) == Sanitized(s)
    ensures Components(s) == Components(t) <==> Sanitized(s) == Sanitized(t)
  {
    ComponentsAreWords(s);
    ComponentsAreWords(t);
    SplitJoin(Components(s));
    SplitJoin(Components(t));
  }

  // ---------------------------------------------------------------------------------------------
  // Dispatch
  // ---------------------------------------------------------------------------------------------

  /** Handlers by number; each has the routes whose target is alive. */
  type Mounts = seq<map<Name, nat>>

  predicate Closed(mounts: Mounts) {
    forall h :: 0 <= h < |mounts| ==> forall r :: r in mounts[h] ==> mounts[h][r] < |mounts|
  }

  /** The walk by components: follow a mounted first component as long as something is left after it. */
  function Walk(mounts: Mounts, h: nat, cs: seq<Name>): (nat, seq<Name>)
    requires Closed(mounts) && h < |mounts|
    decreases |cs|
  {
    if |cs| >= 2 && cs[0] in mounts[h] then Walk(mounts, mounts[h][cs[0]], cs[1..]) else (h, cs)
  }

  /** The handlers `via` lead from h along the first components, each mounted in the one before; `rest` is
      what is left at the last, and it ends there: one component or none is left, or the next is not mounted. */
  ghost predicate Reached(mounts: Mounts, h: nat, cs: seq<Name>, via: seq<nat>, rest: seq<Name>) {
    && |via| + |rest| == |cs| + 1 && via != [] && via[0] == h
    && (forall i :: 0 <= i < |via| ==> via[i] < |mounts|)
    && (forall i :: 0 <= i < |via| - 1 ==> cs[i] in mounts[via[i]] && mounts[via[i]][cs[i]] == via[i + 1])
    && rest == cs[|via| - 1..] && (cs != [] ==> rest != [])
    && (|rest| <= 1 || rest[0] !in mounts[via[|via| - 1]])
  }

  lemma ReachedHere(mounts: Mounts, h: nat, cs: seq<Name>)
    requires h < |mounts| && (|cs| <= 1 || cs[0] !in mounts[h])
    ensures Reached(mounts, h, cs, [h], cs)
  {}

  lemma ReachedThrough(mounts: Mounts, h: nat, cs: seq<Name>, via: seq<nat>, rest: seq<Name>)
    requires h < |mounts| && |cs| >= 2 && cs[0] in mounts[h] && Reached(mounts, mounts[h][cs[0]], cs[1..], via, rest)
    ensures Reached(mounts, h, cs, [h] + via, rest)
  {
    assert cs[1..][|via| - 1..] == cs[|via|..];
    forall i | 0 <= i < |via| ensures cs[i] in mounts[([h] + via)[i]] && mounts[([h] + via)[i]][cs[i]] == ([h] + via)[i + 1] {
      if i > 0 { assert cs[i] == cs[1..][i - 1]; }
    }
  }

  /** Exactly one chain of handlers does so. */
  lemma {:induction false} OneChain(mounts: Mounts, h: nat, cs: seq<Name>, via: seq<nat>, rest: seq<Name>)
    requires Closed(mounts) && h < |mounts| && Reached(mounts, h, cs, via, rest)
    ensures Walk(mounts, h, cs) == (via[|via| - 1], rest)
    decreases |cs|
  {
    if |cs| >= 2 && cs[0] in mounts[h] {
      var next := mounts[h][cs[0]];
      assert |via| > 1 && via[1] == next;
      assert cs[1..][|via[1..]| - 1..] == cs[|via| - 1..];
      forall i | 0 <= i < |via[1..]| - 1
        ensures cs[1..][i] in mounts[via[1..][i]] && mounts[via[1..][i]][cs[1..][i]] == via[1..][i + 1]
      {
        assert cs[i + 1] in mounts[via[i + 1]];
      }
      OneChain(mounts, next, cs[1..], via[1..], rest);
    }
  }

  method FindSlash(s: Name) returns (pos: nat)
    ensures pos == WordLength(s)
  {
    pos := 0;
    while pos < |s| && s[pos] != SLASH
      invariant pos <= |s| && pos + WordLength(s[pos..]) == WordLength(s)
    {
      assert s[pos..][1..] == s[pos + 1..];
      pos := pos + 1;
    }
  }

  lemma FirstComponent(cs: seq<Name>)
    requires Words(cs)
    ensures cs == [] ==> WordLength(Join(cs)) == 0 && Join(cs) == []
    ensures |cs| == 1 ==> WordLength(Join(cs)) == |Join(cs)|
    ensures |cs| >= 2 ==> var n := WordLength(Join(cs)); n < |Join(cs)| && Join(cs)[..n] == cs[0] && Join(cs)[n + 1..] == Join(cs[1..])
  {
    if |cs| == 1 {
      WordLengthThen(cs[0], []);
      assert cs[0] + [] == cs[0];
    } else if |cs| >= 2 {
      WordLengthThen(cs[0], [SLASH] + Join(cs[1..]));
    }
  }

  /** IHandler::Handle on any mount graph, loops included: it ends, at the handler that the components lead
      to, with the components that are left. */
  method Handle(mounts: Mounts, h: nat, name: Name) returns (target: nat, rest: Name, ghost via: seq<nat>, ghost left: seq<Name>)
    requires Closed(mounts) && h < |mounts|
    ensures Reached(mounts, h, Components(name), via, left) && target == via[|via| - 1] && rest == Join(left)
    ensures var (t, cs) := Walk(mounts, h, Components(name)); target == t && rest == Join(cs)
    decreases |name|
  {
    hide Reached;
    var raw := SanitizeSlashes(name);
    var cs := Components(name);
    ComponentsAreWords(name);
    FirstComponent(cs);
    var pos := FindSlash(raw);
    if pos == |raw| || raw[..pos] !in mounts[h] {
      ReachedHere(mounts, h, cs);
      OneChain(mounts, h, cs, [h], cs);
      return h, raw, [h], cs;
    }
    var route := raw[..pos];
    SplitJoin(cs[1..]);
    target, rest, via, left := Handle(mounts, mounts[h][route], raw[pos + 1..]);
    ReachedThrough(mounts, h, cs, via, left);
    NotEmpty(mounts, mounts[h][route], cs[1..], via, left);
    via := [h] + via;
  }

  lemma NotEmpty(mounts: Mounts, h: nat, cs: seq<Name>, via: seq<nat>, left: seq<Name>)
    requires Reached(mounts, h, cs, via, left)
    ensures via != []
  {}
}
