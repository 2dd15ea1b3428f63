/**
 * Path text and its components, and the path the RPC server computes for an
 * open relative to a directory descriptor.
 */
module FilePaths {
  import Keys = ObjectStores
  import opened FileSystems
  import opened RpcServers

  /** What a component may be: not empty, and free of slashes. */
  predicate Plain(name: string) { name != "" && '/' !in name }

  /** One way to write a component list: each component after a slash. */
  function Spell(comps: seq<string>): string {
    if comps == [] then "" else Spell(Front(comps)) + "/" + Last(comps)
  }

  lemma {:induction false} PiecesPlain(current: string, rest: string)
    requires '/' !in current
    ensures forall i :: 0 <= i < |Pieces(current, rest)| ==> Plain(Pieces(current, rest)[i])
    decreases |rest|
  {
    if rest != "" {
      if rest[0] == '/' {
        PiecesPlain("", rest[1..]);
      } else {
        PiecesPlain(current + [rest[0]], rest[1..]);
      }
    }
  }

  /** Text around a slash splits there. */
  lemma {:induction false} PiecesSplit(current: string, left: string, right: string)
    ensures Pieces(current, left + "/" + right) == Pieces(current, left) + Components(right)
    decreases |left|
  {
    var all := left + "/" + right;
    if left == "" {
      assert all[1..] == right;
    } else {
      assert all[0] == left[0] && all[1..] == left[1..] + "/" + right;
      if left[0] == '/' {
        PiecesSplit("", left[1..], right);
      } else {
        PiecesSplit(current + [left[0]], left[1..], right);
      }
    }
  }

  lemma {:induction false} PiecesOfName(current: string, name: string)
    requires '/' !in name
    ensures Pieces(current, name) == if current + name == "" then [] else [current + name]
    decreases |name|
  {
    if name == "" {
      assert current + name == current;
    } else {
      assert name == [name[0]] + name[1..];
      PiecesOfName(current + [name[0]], name[1..]);
      assert current + [name[0]] + name[1..] == current + name;
    }
  }

  /** Components are plain, and every list of plain names is the components of a path. */
  lemma {:induction false} ComponentsRoundTrip(comps: seq<string>)
    ensures Components(Spell(comps)) == comps <==> forall i :: 0 <= i < |comps| ==> Plain(comps[i])
  {
    PiecesPlain("", Spell(comps));
    if forall i :: 0 <= i < |comps| ==> Plain(comps[i]) {
      SpelledPlain(comps);
    }
  }

  lemma {:induction false} SpelledPlain(comps: seq<string>)
    requires forall i :: 0 <= i < |comps| ==> Plain(comps[i])
    ensures Components(Spell(comps)) == comps
  {
    if comps != [] {
      SpelledPlain(Front(comps));
      PiecesSplit("", Spell(Front(comps)), Last(comps));
      PiecesOfName("", Last(comps));
      assert "" + Last(comps) == Last(comps);
      assert Front(comps) + [Last(comps)] == comps;
    }
  }

  // --------------------------------------------------- relative opens ---

  lemma {:induction false} TrimStartComponents(s: string)
    ensures Components(Keys.TrimSlashesStart(s)) == Components(s)
    decreases |s|
  {
    if s != "" && s[0] == '/' {
      TrimStartComponents(s[1..]);
    }
  }

  lemma {:induction false} TrimEndComponents(s: string)
    ensures Components(Keys.TrimSlashesEnd(s)) == Components(s)
    decreases |s|
  {
    if s != "" && s[|s| - 1] == '/' {
      var front := s[..|s| - 1];
      TrimEndComponents(front);
      PiecesSplit("", front, "");
      assert front + "/" + "" == s;
    }
  }

  /** The joined path has the directory's components, then the relative ones. */
  lemma JoinDirComponents(dir: string, path: string)
    ensures Components(JoinDir(dir, path)) == Components(dir) + Components(path)
  {
    TrimStartComponents(path);
    TrimEndComponents(dir);
    PiecesSplit("", Keys.TrimSlashesEnd(dir), Keys.TrimSlashesStart(path));
    if dir == "/" {
      PiecesSplit("", "", Keys.TrimSlashesStart(path));
      assert "" + "/" + Keys.TrimSlashesStart(path) == JoinDir(dir, path);
      PiecesSplit("", "", "");
      assert "" + "/" + "" == dir;
    }
  }

  lemma {:induction false} SpellTogether(a: seq<string>, b: seq<string>)
    ensures Spell(a + b) == Spell(a) + Spell(b)
    decreases |b|
  {
    if b == [] {
      assert a + b == a;
    } else {
      SpellTogether(a, Front(b));
      assert Front(a + b) == a + Front(b);
    }
  }

  /** A cleanly spelled path ends with its last name, and starts with its first. */
  lemma SpelledEnds(comps: seq<string>)
    requires comps != [] && forall i :: 0 <= i < |comps| ==> Plain(comps[i])
    ensures var text := Spell(comps); 2 <= |text| && text[0] == '/' && text[1] != '/' && text[|text| - 1] != '/'
  {
    var first := [comps[0]];
    SpellTogether(first, comps[1..]);
    assert first + comps[1..] == comps && Front(first) == [];
    assert Spell(first) == "" + "/" + comps[0];
    assert Spell(first)[1] == comps[0][0];
    var text := Spell(comps);
    assert text == Spell(Front(comps)) + "/" + Last(comps);
    assert text[|text| - 1] == Last(comps)[|Last(comps)| - 1];
  }

  /** Between clean spellings the join is the clean spelling: a relative open names
      its file with the very text that an open by path would. */
  lemma JoinIsSpelled(dir: string, path: string)
    requires Components(path) != [] && "/" + path == Spell(Components(path))
    requires dir == "/" || (dir != "" && dir == Spell(Components(dir)))
    ensures JoinDir(dir, path) == Spell(Components(dir) + Components(path))
  {
    var d, c := Components(dir), Components(path);
    PiecesPlain("", path);
    PiecesPlain("", dir);
    SpellTogether(d, c);
    SpelledEnds(c);
    assert ("/" + path)[1] == path[0];
    if dir == "/" {
      PiecesSplit("", "", "");
      assert "" + "/" + "" == dir;
    } else {
      SpelledEnds(d);
    }
    hide Spell, Components, Pieces;
    assert Keys.TrimSlashesStart(path) == path;
  }

  lemma {:induction false} DropNameSplits(s: string)
    ensures var d := DropName(s);
            && d <= s && '/' !in s[|d|..] && (d != "" ==> d[|d| - 1] == '/')
  {
    if s != "" && s[|s| - 1] != '/' {
      DropNameSplits(s[..|s| - 1]);
      var d := DropName(s);
      assert s[|d|..] == s[..|s| - 1][|d|..] + [s[|s| - 1]];
    }
  }

  /** A name at the end of a directory's text is its last component. */
  lemma NameAfterDir(d: string, name: string)
    requires name != "" && '/' !in name && (d != "" ==> d[|d| - 1] == '/')
    ensures Components(d + name) == Components(d) + [name]
  {
    PiecesOfName("", name);
    assert "" + name == name;
    if d == "" {
      assert d + name == name;
    } else {
      var e := d[..|d| - 1];
      assert d == e + "/" + "" && d + name == e + "/" + name;
      PiecesSplit("", e, "");
      PiecesSplit("", e, name);
    }
    hide Pieces;
  }

  /** The parent of a path has all its components but the last. */
  lemma ParentComponents(path: string)
    requires Components(path) != []
    ensures Components(ParentOf(path)) == Front(Components(path))
  {
    var t := Keys.TrimSlashesEnd(path);
    TrimEndComponents(path);
    Keys.TrimSlashesEndFacts(path);
    assert t != "";
    hide Pieces, Components, Keys.TrimSlashesEnd;
    var d := DropName(t);
    DropNameSplits(t);
    TrimEndComponents(d);
    var name := t[|d|..];
    assert t == d + name && name != "";
    NameAfterDir(d, name);
  }

  lemma {:induction false} ResolveFrom(inodes: Table, start: nat, dir: seq<string>, rest: seq<string>)
    requires Resolve(inodes, start, dir).Ok?
    ensures Resolve(inodes, start, dir + rest) == Resolve(inodes, Resolve(inodes, start, dir).value, rest)
    decreases |rest|
  {
    if rest == [] {
      assert dir + rest == dir;
    } else {
      ResolveFrom(inodes, start, dir, Front(rest));
      assert Front(dir + rest) == dir + Front(rest);
    }
  }

  /** The path under which the server leases a relative open leads from the root
      to the inode that the open reaches from the directory, as long as the
      directory is still where its descriptor was opened. */
  lemma JoinedPathLeadsThere(s: FsState, dirFd: nat, dir: string, path: string)
    requires dirFd in s.fds && Resolve(s.inodes, s.root, Components(dir)) == Ok(s.fds[dirFd].inode)
    ensures Resolve(s.inodes, s.root, Components(JoinDir(dir, path))) == Resolve(s.inodes, s.fds[dirFd].inode, Components(path))
  {
    JoinDirComponents(dir, path);
    ResolveFrom(s.inodes, s.root, Components(dir), Components(path));
  }
}
