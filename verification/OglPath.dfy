/** Paths as the C++ code spells them, and the path arithmetic of the
    repository. */
module OglPath {
  import opened Wire
  import opened OglTree

  /** ogl_dir::get_path: the root's own spelling and then "/name" for each step. */
  function Spell(root: bytes, p: Path): bytes {
    if p == [] then root else Spell(root, p[..|p| - 1]) + [SLASH] + p[|p| - 1]
  }

  /** Where the first separator is, or the length. */
  function FirstSlash(s: bytes): (k: nat)
    ensures k <= |s|
    ensures k < |s| ==> s[k] == SLASH
    ensures SLASH !in s[..k]
  {
    if s == [] || s[0] == SLASH then 0
    else
      assert forall j :: 1 <= j <= |s| ==> s[..j] == [s[0]] + s[1..][..j - 1];
      1 + FirstSlash(s[1..])
  }

  /** The first component of a relative path and what follows it. */
  function Head(s: bytes): bytes {
    s[..FirstSlash(s)]
  }

  function Rest(s: bytes): bytes {
    if FirstSlash(s) < |s| then s[FirstSlash(s) + 1..] else []
  }

  /** The components the lookup loop goes through. */
  function Components(s: bytes): seq<bytes>
    decreases |s|
  {
    if s == [] then [] else [Head(s)] + Components(Rest(s))
  }

  /** The lookup loop asserts that no component is empty. */
  predicate NoEmptyComponent(s: bytes)
    decreases |s|
  {
    s == [] || (Head(s) != [] && NoEmptyComponent(Rest(s)))
  }

  predicate ProperRoot(root: bytes) {
    root != [] && root[0] == SLASH && (root == [SLASH] || root[|root| - 1] != SLASH)
  }

  /** ancest_of_path. */
  predicate AncestOf(ancest: bytes, descent: bytes)
    requires ProperRoot(ancest) && descent != [] && descent[0] == SLASH
  {
    if ancest == [SLASH] then |descent| > 1
    else if |ancest| + 1 >= |descent| then false
    else ancest <= descent && descent[|ancest|] == SLASH
  }

  /** relative_path. */
  function Relative(ancest: bytes, descent: bytes): bytes
    requires ProperRoot(ancest) && descent != [] && descent[0] == SLASH && AncestOf(ancest, descent)
  {
    descent[|ancest| + 1..]
  }

  /** The steps below the root, as one relative path. */
  function Joined(p: Path): bytes {
    if p == [] then [] else if |p| == 1 then p[0] else p[0] + [SLASH] + Joined(p[1..])
  }

  lemma {:induction false} ComponentsOfJoined(p: Path)
    ensures NoEmptyComponent(Joined(p)) && Components(Joined(p)) == p
    ensures p != [] ==> Joined(p) != []
  {
    if p != [] {
      var n, s := p[0], Joined(p);
      ComponentsOfJoined(p[1..]);
      if |p| == 1 {
        NoSlash(n, []);
        assert n + [] == n;
        assert p == [n] + p[1..];
      } else {
        NoSlash(n, [SLASH] + Joined(p[1..]));
        assert s == n + ([SLASH] + Joined(p[1..]));
        assert Rest(s) == Joined(p[1..]);
        assert p == [n] + p[1..];
      }
    }
  }

  lemma {:induction false} NoSlash(n: bytes, tail: bytes)
    requires SLASH !in n && (tail == [] || tail[0] == SLASH)
    ensures FirstSlash(n + tail) == |n| && Head(n + tail) == n
  {
    if n == [] {
      assert n + tail == tail;
    } else {
      assert (n + tail)[0] == n[0] && (n + tail)[1..] == n[1..] + tail;
      NoSlash(n[1..], tail);
    }
  }

  lemma {:induction false} SpellIsJoined(root: bytes, p: Path)
    requires p != []
    ensures Spell(root, p) == root + [SLASH] + Joined(p)
  {
    var init, last := p[..|p| - 1], p[|p| - 1];
    if init == [] {
      assert p == [last];
      assert root + [SLASH] + last == Spell(root, p);
    } else {
      SpellIsJoined(root, init);
      JoinedSnoc(init, last);
      assert p == init + [last];
    }
  }

  lemma {:induction false} JoinedSnoc(p: Path, n: Name)
    requires p != []
    ensures Joined(p + [n]) == Joined(p) + [SLASH] + n
  {
    assert (p + [n])[1..] == p[1..] + [n];
    if |p| > 1 {
      JoinedSnoc(p[1..], n);
    }
  }

  /** Taking a spelled path apart gives its steps back, under any root. */
  lemma SpellingParses(root: bytes, p: Path)
    requires ProperRoot(root) && p != []
    ensures var s := Spell(root, p);
      && s != root && s[0] == SLASH && AncestOf(root, s)
      && NoEmptyComponent(Relative(root, s)) && Components(Relative(root, s)) == p
  {
    SpellIsJoined(root, p);
    ComponentsOfJoined(p);
    var s := Spell(root, p);
    assert s[|root| + 1..] == Joined(p);
  }

  /** Spelling is one to one, so a path string stands for one directory. */
  lemma SpellingTells(root: bytes, p: Path, q: Path)
    requires ProperRoot(root) && Spell(root, p) == Spell(root, q)
    ensures p == q
  {
    if p != [] {
      SpellingParses(root, p);
    }
    if q != [] {
      SpellingParses(root, q);
    }
  }

  /** Under the root "/" an ordinary absolute path loses the first byte of its
      first component; under any other root it does not. */
  lemma SlashRootDropsAByte(root: bytes, p: Path)
    requires ProperRoot(root) && p != []
    ensures var s := (if root == [SLASH] then [] else root) + [SLASH] + Joined(p);
      && (AncestOf(root, s) ==> (Relative(root, s) == Joined(p) <==> root != [SLASH]))
      && AncestOf(root, s)
      && (root == [SLASH] ==> Relative(root, s) == Joined(p)[1..])
  {
    ComponentsOfJoined(p);
    var j := Joined(p);
    if root == [SLASH] {
      var s := [] + [SLASH] + j;
      assert s == [SLASH] + j && s[2..] == j[1..];
      assert |j[1..]| < |j|;
    } else {
      var s := root + [SLASH] + j;
      assert s[|root| + 1..] == j;
    }
  }
}
