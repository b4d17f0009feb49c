/**
 vfs_resolve of kernel/fs/vfs.c: expanding symbolic links in an absolute path.
 */
module PathResolve {
  import opened Wrappers

  const PATH_MAX: nat := 256
  const DEPTH_MAX: nat := 8

  type Name = string

  datatype Errno = EINVAL | ENAMETOOLONG | ELOOP | EIO

  // What vfs_readlink says of a path: no link there, a link, or a failure.
  datatype Link = NotLink | Target(text: string) | Fail(error: Errno)

  type Links = string -> Link

  datatype Result = Ok(names: seq<Name>) | Err(error: Errno)

  // ---------- text ----------

  // The text from its first character that is no slash.
  function Skip(s: string): (r: string)
    ensures |r| <= |s| && (r != "" ==> r[0] != '/')
  {
    if s != "" && s[0] == '/' then Skip(s[1..]) else s
  }

  // The length of the first component.
  function SegLen(s: string): (n: nat)
    ensures n <= |s| && (s != "" && s[0] != '/' ==> n > 0) && (forall i :: 0 <= i < n ==> s[i] != '/')
            && (n < |s| ==> s[n] == '/')
  {
    if s == "" || s[0] == '/' then 0 else 1 + SegLen(s[1..])
  }

  // A component that stands for itself.
  predicate Plain(n: Name) { n != "" && n != "." && n != ".." && forall c <- n :: c != '/' }

  predicate AllPlain(names: seq<Name>) { forall i :: 0 <= i < |names| ==> Plain(names[i]) }

  function Join(names: seq<Name>): string {
    if names == [] then "" else Join(names[..|names| - 1]) + "/" + names[|names| - 1]
  }

  // The absolute path of a list of components.
  function Render(names: seq<Name>): string { if names == [] then "/" else Join(names) }

  // resolved_pop
  function Pop(names: seq<Name>): seq<Name> { if names == [] then names else names[..|names| - 1] }

  // The length resolved_push needs.
  function Need(names: seq<Name>, n: nat): nat { |Render(names)| + n + (if |Render(names)| > 1 then 1 else 0) }

  // target + "/" + remainder
  function Spliced(target: string, rest: string): string { if rest == "" then target else target + "/" + rest }

  // ---------- what is computed ----------

  /** The components that `work` resolves to below the directory named by `names`. */
  function Run(fs: Links, names: seq<Name>, work: string, budget: nat, follow: bool, cap: nat): Result
    decreases budget, |work|
  {
    var s := Skip(work);
    if s == "" then Ok(names)
    else
      var n := SegLen(s);
      var name, after := s[..n], s[n..];
      if name == "." then Run(fs, names, after, budget, follow, cap)
      else if name == ".." then Run(fs, Pop(names), after, budget, follow, cap)
      else if Need(names, n) >= cap then Err(ENAMETOOLONG)
      else if Skip(after) == "" && !follow then Ok(names + [name])
      else
        match fs(Render(names + [name]))
        case Fail(e) => Err(e)
        case NotLink => Run(fs, names + [name], after, budget, follow, cap)
        case Target(t) =>
          if t == "" then Run(fs, names + [name], after, budget, follow, cap)
          else if budget == 0 then Err(ELOOP)
          else if |Spliced(t, Skip(after))| >= PATH_MAX then Err(ENAMETOOLONG)
          else Run(fs, if t[0] == '/' then [] else names, Spliced(t, Skip(after)), budget - 1, follow, cap)
  }

  function Resolution(fs: Links, path: string, follow: bool, cap: nat): Result {
    if cap < 2 || path == "" || path[0] != '/' then Err(EINVAL)
    else if |path| >= PATH_MAX then Err(ENAMETOOLONG)
    else Run(fs, [], path, DEPTH_MAX, follow, cap)
  }

  // The return value and the text left in the caller's buffer.
  predicate Says(r: Result, error: Option<Errno>, out: string) {
    match r
    case Ok(names) => error.None? && out == Render(names)
    case Err(e) => error == Some(e)
  }

  // ---------- the loop ----------

  /** vfs_resolve: ends for every arrangement of links, because each round reads a component or uses up an expansion. */
  method Resolve(fs: Links, path: string, follow: bool, cap: nat) returns (error: Option<Errno>, out: string)
    ensures Says(Resolution(fs, path, follow, cap), error, out)
  {
    hide *;
    ResolutionIs(fs, path, follow, cap);
    out := "";
    if cap < 2 || path == "" || path[0] != '/' { return Some(EINVAL), out; }
    if |path| >= PATH_MAX { return Some(ENAMETOOLONG), out; }
    var work, pos: nat, expansions: nat := path, 0, 0;
    out := "/";
    RootIs();
    ghost var names: seq<Name> := [];
    assert work[0..] == path;
    while true
      invariant pos <= |work| && expansions <= DEPTH_MAX && out == Render(names) && AllPlain(names)
      invariant Run(fs, [], path, DEPTH_MAX, follow, cap)
                == Run(fs, names, work[pos..], DEPTH_MAX - expansions, follow, cap)
      decreases DEPTH_MAX - expansions, |work| - pos
    {
      ghost var unread := work[pos..];
      RunIs(fs, names, unread, DEPTH_MAX - expansions, follow, cap);
      var start := SkipFrom(work, pos);
      if start == |work| { return None, out; }
      pos := SegmentEnd(work, start);
      var name := work[start..pos];
      Segmented(work, start, pos);
      assert Skip(unread) == work[start..];
      NamePlain(work[start..]);
      NamesFacts(names, name, |name|);
      LookIs(fs, names, name, work[pos..], DEPTH_MAX - expansions, follow, cap);
      if name == "." { continue; }
      if name == ".." {
        out := Popped(out, names);
        names := Pop(names);
        continue;
      }
      if |out| + |name| + (if |out| > 1 then 1 else 0) >= cap { return Some(ENAMETOOLONG), out; }
      ghost var parent := names;
      var parentOut := out;
      out := if |out| > 1 then out + "/" + name else out + name;
      PushIs(names, name);
      names := names + [name];
      var rest := SkipFrom(work, pos);
      if rest == |work| && !follow { return None, out; }
      var link := fs(out);
      if link.Fail? { return Some(link.error), out; }
      if link.NotLink? || link.text == "" { continue; }
      if expansions + 1 > DEPTH_MAX { return Some(ELOOP), out; }
      expansions := expansions + 1;
      out, names := parentOut, parent;
      if link.text[0] == '/' { out, names := "/", []; RootIs(); }
      if |Spliced(link.text, work[rest..])| >= PATH_MAX { return Some(ENAMETOOLONG), out; }
      work := Spliced(link.text, work[rest..]);
      pos := 0;
      assert work[0..] == work;
    }
  }

  method SkipFrom(work: string, pos: nat) returns (p: nat)
    requires pos <= |work|
    ensures pos <= p <= |work| && work[p..] == Skip(work[pos..]) && (p < |work| ==> work[p] != '/')
  {
    p := pos;
    while p < |work| && work[p] == '/'
      invariant pos <= p <= |work| && Skip(work[p..]) == Skip(work[pos..])
    {
      assert work[p..][1..] == work[p + 1..];
      p := p + 1;
    }
  }

  method SegmentEnd(work: string, start: nat) returns (p: nat)
    requires start <= |work|
    ensures start <= p <= |work| && p - start == SegLen(work[start..])
  {
    p := start;
    while p < |work| && work[p] != '/'
      invariant start <= p <= |work| && p - start + SegLen(work[p..]) == SegLen(work[start..])
    {
      assert work[p..][1..] == work[p + 1..];
      p := p + 1;
    }
  }

  lemma Segmented(work: string, start: nat, pos: nat)
    requires start <= pos <= |work| && pos - start == SegLen(work[start..])
    ensures var s := work[start..]; s[..SegLen(s)] == work[start..pos] && s[SegLen(s)..] == work[pos..]
  {
  }

  lemma RootIs()
    ensures Render([]) == "/"
  {
  }

  lemma JoinLast(names: seq<Name>)
    requires AllPlain(names) && names != []
    ensures var last := names[|names| - 1];
            Render(names) == Join(Pop(names)) + "/" + last && last != "" && (forall c <- last :: c != '/')
    ensures |Render(names)| > 1
  {
  }

  // resolved_pop on the text of a path
  method Popped(out: string, ghost names: seq<Name>) returns (r: string)
    requires out == Render(names) && AllPlain(names)
    ensures r == Render(Pop(names))
  {
    hide Join;
    ghost var base := Join(Pop(names));
    if names != [] {
      JoinLast(names);
      LastClean(base, names[|names| - 1]);
    }
    PopIs(names);
    var len := |out|;
    while len > 1 && out[len - 1] != '/'
      invariant 0 < len <= |out|
      invariant names != [] ==> |base| < len
    {
      len := len - 1;
    }
    if len > 1 { len := len - 1; }
    r := out[..len];
  }

  lemma LastClean(base: string, last: Name)
    requires forall c <- last :: c != '/'
    ensures var out := base + "/" + last; forall k :: |base| < k < |out| ==> out[k] != '/'
  {
    var out := base + "/" + last;
    forall k | |base| < k < |out| ensures out[k] != '/' {
      assert out[k] == last[k - |base| - 1]; assert out[k] in last;
    }
  }

  lemma PopIs(names: seq<Name>)
    requires AllPlain(names)
    ensures Render(Pop(names)) == if |names| <= 1 then "/" else Join(Pop(names))
    ensures |names| > 1 ==> |Join(Pop(names))| > 0
    ensures |names| == 1 ==> Join(Pop(names)) == ""
  {
    if |names| > 1 { JoinLast(Pop(names)); }
  }

  lemma PushIs(names: seq<Name>, name: Name)
    requires AllPlain(names)
    ensures Render(names + [name]) == if |Render(names)| > 1 then Render(names) + "/" + name else Render(names) + name
  {
    assert (names + [name])[..|names|] == names;
    if names != [] {
      JoinLast(names);
    } else {
      assert Join(names) + "/" + name == "/" + name;
    }
  }

  // One round of the loop.
  lemma RunIs(fs: Links, names: seq<Name>, work: string, budget: nat, follow: bool, cap: nat)
    ensures Run(fs, names, work, budget, follow, cap) ==
            var s := Skip(work);
            if s == "" then Ok(names)
            else
              var n := SegLen(s);
              var name, after := s[..n], s[n..];
              if name == "." then Run(fs, names, after, budget, follow, cap)
              else if name == ".." then Run(fs, Pop(names), after, budget, follow, cap)
              else if Need(names, n) >= cap then Err(ENAMETOOLONG)
              else if Skip(after) == "" && !follow then Ok(names + [name])
              else Look(fs, names, name, after, budget, follow, cap)
  {
  }

  lemma ResolutionIs(fs: Links, path: string, follow: bool, cap: nat)
    ensures Resolution(fs, path, follow, cap) ==
            if cap < 2 || path == "" || path[0] != '/' then Err(EINVAL)
                                                            else if |path| >= PATH_MAX
                                                                 then Err(ENAMETOOLONG)
                                                                     else Run(fs, [], path, DEPTH_MAX, follow, cap)
    ensures forall r, error, out :: Says(r, error, out) <==>
                                      if r.Ok? then error.None? && out == Render(r.names) else error == Some(r.error)
    ensures AllPlain([])
  {
  }

  lemma NamesFacts(names: seq<Name>, name: Name, n: nat)
    ensures Need(names, n) == |Render(names)| + n + (if |Render(names)| > 1 then 1 else 0)
    ensures AllPlain(names) && Plain(name) ==> AllPlain(names + [name])
    ensures AllPlain(names) ==> AllPlain(Pop(names))
  {
  }

  lemma LookIs(fs: Links, names: seq<Name>, name: Name, after: string, budget: nat, follow: bool, cap: nat)
    ensures var link, r := fs(Render(names + [name])), Look(fs, names, name, after, budget, follow, cap);
            if link.Fail? then r == Err(link.error)
            else if link.NotLink? || link.text == "" then r == Run(fs, names + [name], after, budget, follow, cap)
            else if budget == 0 then r == Err(ELOOP)
            else if |Spliced(link.text, Skip(after))| >= PATH_MAX then r == Err(ENAMETOOLONG)
            else r == Run(fs, if link.text[0] == '/' then [] else names, Spliced(link.text, Skip(after)), budget - 1,
                                                                  follow, cap)
  {
  }

  // What follows once a component was pushed and looked up.
  function Look(fs: Links, names: seq<Name>, name: Name, after: string, budget: nat, follow: bool, cap: nat): Result {
    match fs(Render(names + [name]))
    case Fail(e) => Err(e)
    case NotLink => Run(fs, names + [name], after, budget, follow, cap)
    case Target(t) =>
      if t == "" then Run(fs, names + [name], after, budget, follow, cap)
      else if budget == 0 then Err(ELOOP)
      else if |Spliced(t, Skip(after))| >= PATH_MAX then Err(ENAMETOOLONG)
      else Run(fs, if t[0] == '/' then [] else names, Spliced(t, Skip(after)), budget - 1, follow, cap)
  }

  lemma NamePlain(s: string)
    requires s != "" && s[0] != '/'
    ensures var name := s[..SegLen(s)]; name != "." && name != ".." ==> Plain(name)
  {
  }

  // ---------- what a successful result is ----------

  predicate Quiet(link: Link) { link.NotLink? || (link.Target? && link.text == "") }

  // No prefix of the path is a symbolic link.
  predicate Settled(fs: Links, names: seq<Name>) { forall i :: 0 <= i < |names| ==> QuietAt(fs, names, i) }

  predicate QuietAt(fs: Links, names: seq<Name>, i: nat)
    requires i < |names|
  {
    Quiet(fs(Render(names[..i + 1])))
  }

  // Plain components, short enough, with links only where they were not to be followed.
  ghost predicate Final(fs: Links, names: seq<Name>, follow: bool, cap: nat) {
    AllPlain(names) && |Render(names)| < cap && Settled(fs, if follow then names else Pop(names))
  }

  lemma SettledPop(fs: Links, names: seq<Name>)
    requires Settled(fs, names)
    ensures Settled(fs, Pop(names))
  {
    var t := Pop(names);
    forall i | 0 <= i < |t| ensures QuietAt(fs, t, i) {
      assert QuietAt(fs, names, i);
      assert t[..i + 1] == names[..i + 1];
    }
  }

  lemma SettledPush(fs: Links, names: seq<Name>, name: Name)
    requires Settled(fs, names) && Quiet(fs(Render(names + [name])))
    ensures Settled(fs, names + [name])
  {
    var t := names + [name];
    forall i | 0 <= i < |t| ensures QuietAt(fs, t, i) {
      if i < |names| {
        assert QuietAt(fs, names, i);
        assert t[..i + 1] == names[..i + 1];
      } else {
        assert t[..i + 1] == t;
      }
    }
  }

  lemma RenderPop(names: seq<Name>)
    requires AllPlain(names)
    ensures |Render(Pop(names))| <= |Render(names)|
  {
    if names != [] { JoinLast(names); }
    PopIs(names);
  }

  /**
   A successful result has no empty, "." or ".." component and none that is a symbolic link,
   except possibly the last one when the last one was not to be followed.
   */
  lemma {:induction false} RunSettles(fs: Links, names: seq<Name>, work: string, budget: nat, follow: bool, cap: nat)
    requires AllPlain(names) && Settled(fs, names) && |Render(names)| < cap && cap >= 2
    ensures var r := Run(fs, names, work, budget, follow, cap); r.Ok? ==> Final(fs, r.names, follow, cap)
    decreases budget, |work|
  {
    hide *;
    RunIs(fs, names, work, budget, follow, cap);
    FinalIs(fs, names, follow, cap);
    var s := Skip(work);
    if s != "" {
      var n := SegLen(s);
      var name, after := s[..n], s[n..];
      NamePlain(s);
      NamesFacts(names, name, n);
      if name == "." {
        RunSettles(fs, names, after, budget, follow, cap);
      } else if name == ".." {
        SettledPop(fs, names);
        RenderPop(names);
        RunSettles(fs, Pop(names), after, budget, follow, cap);
      } else if Need(names, n) < cap {
        PushIs(names, name);
        if !follow { FinalPushed(fs, names, name, follow, cap); }
        LookIs(fs, names, name, after, budget, follow, cap);
        var link := fs(Render(names + [name]));
        if Quietly(link) {
          SettledPush(fs, names, name);
          RunSettles(fs, names + [name], after, budget, follow, cap);
        } else if link.Target? && budget > 0 {
          SettledNone(fs);
          RunSettles(fs, if link.text[0] == '/' then [] else names, Spliced(link.text, Skip(after)), budget - 1,
                                                             follow, cap);
        }
      }
    }
  }

  predicate Quietly(link: Link)
    ensures Quietly(link) <==> Quiet(link)
    ensures Quietly(link) <==> link.NotLink? || (link.Target? && link.text == "")
  {
    Quiet(link)
  }

  lemma SettledNone(fs: Links)
    ensures Settled(fs, []) && AllPlain([]) && Render([]) == "/"
  {
  }

  lemma FinalIs(fs: Links, names: seq<Name>, follow: bool, cap: nat)
    requires AllPlain(names) && Settled(fs, names) && |Render(names)| < cap
    ensures Final(fs, names, follow, cap)
  {
    SettledPop(fs, names);
  }

  // A last component that is not followed is not looked at.
  lemma FinalPushed(fs: Links, names: seq<Name>, name: Name, follow: bool, cap: nat)
    requires AllPlain(names) && Plain(name) && Settled(fs, names) && |Render(names + [name])| < cap && !follow
    ensures Final(fs, names + [name], follow, cap)
  {
    assert Pop(names + [name]) == names;
  }

  // ---------- without links ----------

  // Lexical normalisation: "." is dropped, ".." undoes the component before it.
  function Normal(names: seq<Name>, work: string): seq<Name>
    decreases |work|
  {
    var s := Skip(work);
    if s == "" then names
    else
      var n := SegLen(s);
      var name, after := s[..n], s[n..];
      Normal(if name == "." then names else if name == ".." then Pop(names) else names + [name], after)
  }

  // Room that the rest of the work may still take in the result.
  function Room(names: seq<Name>, work: string): nat {
    (if names == [] then 0 else |Render(names)|) + |work| + (if work == "" || work[0] == '/' then 0 else 1)
  }

  lemma SkipLess(s: string)
    ensures s != "" && s[0] == '/' ==> |Skip(s)| < |s|
    ensures s == "" || s[0] != '/' ==> Skip(s) == s
  {
  }

  lemma RoomIs(names: seq<Name>, work: string)
    requires AllPlain(names) && Skip(work) != ""
    ensures var s := Skip(work); var n := SegLen(s); var name, after := s[..n], s[n..];
            && Room(names, after) <= Room(names, work) && Room(Pop(names), after) <= Room(names, work)
            && Need(names, n) <= Room(names, work) && (Plain(name) ==> Room(names + [name], after) <= Room(names, work))
  {
    hide Render, Join, Plain, Skip, SegLen;
    var s := Skip(work);
    var n := SegLen(s);
    SkipLess(work);
    RenderPop(names);
    RootIs();
    PushIs(names, s[..n]);
    if names != [] { JoinLast(names); }
  }

  // None of the components this path pushes is a link; an unfollowed last one is not asked about.
  predicate QuietOn(fs: Links, names: seq<Name>, work: string, follow: bool)
    decreases |work|
  {
    var s := Skip(work);
    s == "" ||
    (var n := SegLen(s);
     var name, after := s[..n], s[n..];
     if name == "." then QuietOn(fs, names, after, follow)
     else if name == ".." then QuietOn(fs, Pop(names), after, follow)
     else (Skip(after) == "" && !follow)
          || (Quiet(fs(Render(names + [name]))) && QuietOn(fs, names + [name], after, follow)))
  }

  lemma QuietOnIs(fs: Links, names: seq<Name>, work: string, follow: bool)
    requires Skip(work) != "" && QuietOn(fs, names, work, follow)
    ensures var s := Skip(work);
            var n := SegLen(s);
            var name, after := s[..n], s[n..];
            if name == "." then QuietOn(fs, names, after, follow)
            else if name == ".." then QuietOn(fs, Pop(names), after, follow)
            else (Skip(after) == "" && !follow)
                 || (Quiet(fs(Render(names + [name]))) && QuietOn(fs, names + [name], after, follow))
  {
  }

  /** Where no component of the path is a link, resolving is lexical normalisation and never fails for lack of room. */
  lemma {:induction false} RunIsLexical(fs: Links, names: seq<Name>, work: string, budget: nat, follow: bool, cap: nat)
    requires AllPlain(names) && Room(names, work) < cap && QuietOn(fs, names, work, follow)
    ensures Run(fs, names, work, budget, follow, cap) == Ok(Normal(names, work))
    decreases |work|
  {
    hide *;
    RunIs(fs, names, work, budget, follow, cap);
    NormalIs(names, work);
    var s := Skip(work);
    if s != "" {
      var n := SegLen(s);
      var name, after := s[..n], s[n..];
      RoomIs(names, work);
      NamePlain(s);
      NamesFacts(names, name, n);
      QuietOnIs(fs, names, work, follow);
      if name == "." {
        RunIsLexical(fs, names, after, budget, follow, cap);
      } else if name == ".." {
        RunIsLexical(fs, Pop(names), after, budget, follow, cap);
      } else if Skip(after) == "" && !follow {
        NormalIs(names + [name], after);
      } else {
        LookIs(fs, names, name, after, budget, follow, cap);
        var quiet := Quietly(fs(Render(names + [name])));
        RunIsLexical(fs, names + [name], after, budget, follow, cap);
      }
    }
  }

  lemma NormalIs(names: seq<Name>, work: string)
    ensures Normal(names, work) ==
            var s := Skip(work);
            if s == "" then names
            else
              var n := SegLen(s);
              var name, after := s[..n], s[n..];
              Normal(if name == "." then names else if name == ".." then Pop(names) else names + [name], after)
  {
  }

  lemma LexicalWithoutLinks(fs: Links, path: string, follow: bool, cap: nat)
    requires path != "" && path[0] == '/' && |path| < PATH_MAX && |path| < cap && cap >= 2
             && QuietOn(fs, [], path, follow)
    ensures Resolution(fs, path, follow, cap) == Ok(Normal([], path))
  {
    RunIsLexical(fs, [], path, DEPTH_MAX, follow, cap);
  }

  // ---------- resolving a result again ----------

  lemma {:induction false} JoinFront(names: seq<Name>)
    requires names != []
    ensures Join(names) == "/" + names[0] + Join(names[1..])
  {
    var last := |names| - 1;
    if last == 0 {
      assert names[..0] == [] && names[1..] == [];
      assert Join(names) == Join([]) + "/" + names[0];
    } else {
      JoinFront(names[..last]);
      assert names[..last][0] == names[0] && names[..last][1..] == names[1..][..last - 1];
      assert names[1..][last - 1] == names[last];
    }
  }

  // Reading one component of a rendered path.
  lemma ReadOne(names: seq<Name>, k: nat)
    requires AllPlain(names) && k < |names|
    ensures var s := Skip(Join(names[k..]));
            s != "" && SegLen(s) == |names[k]| && s[..SegLen(s)] == names[k] && s[SegLen(s)..] == Join(names[k + 1..])
    ensures k + 1 < |names| ==> Skip(Join(names[k + 1..])) != ""
    ensures k + 1 == |names| ==> Skip(Join(names[k + 1..])) == ""
  {
    hide Join, Skip, SegLen;
    JoinFront(names[k..]);
    assert names[k..][1..] == names[k + 1..];
    var tail := Join(names[k + 1..]);
    if k + 1 < |names| {
      JoinFront(names[k + 1..]);
      assert Plain(names[k + 1]);
      SkipOne(names[k + 1], Join(names[k + 1..][1..]));
    } else {
      JoinNone(names[k + 1..]);
    }
    assert Plain(names[k]);
    SkipOne(names[k], tail);
    SegOne(names[k], tail);
  }

  lemma JoinNone(names: seq<Name>)
    requires names == []
    ensures Join(names) == "" && Skip("") == ""
  {
  }

  lemma SkipOne(name: Name, tail: string)
    requires Plain(name)
    ensures Skip("/" + name + tail) == name + tail
  {
    var s := "/" + name + tail;
    assert s[1..] == name + tail;
    assert name[0] in name && (name + tail)[0] == name[0];
  }

  lemma {:induction false} SegOne(name: Name, tail: string)
    requires (forall c <- name :: c != '/') && (tail == "" || tail[0] == '/')
    ensures SegLen(name + tail) == |name|
  {
    if name == "" {
      assert name + tail == tail;
    } else {
      assert (name + tail)[1..] == name[1..] + tail;
      assert name[0] in name;
      forall c <- name[1..] ensures c != '/' { assert c in name; }
      SegOne(name[1..], tail);
    }
  }

  lemma {:induction false} RenderGrows(names: seq<Name>, k: nat)
    requires AllPlain(names) && k <= |names|
    ensures |Render(names[..k])| <= |Render(names)|
    decreases |names| - k
  {
    if k < |names| {
      RenderGrows(names, k + 1);
      assert Pop(names[..k + 1]) == names[..k];
      RenderPop(names[..k + 1]);
    } else {
      assert names[..k] == names;
    }
  }

  lemma {:induction false} RunAgain(fs: Links, names: seq<Name>, k: nat, budget: nat, follow: bool, cap: nat)
    requires Final(fs, names, follow, cap) && k <= |names|
    ensures Run(fs, names[..k], Join(names[k..]), budget, follow, cap) == Ok(names)
    decreases |names| - k
  {
    hide *;
    FinalFacts(fs, names, follow, cap);
    var done, todo := names[..k], Join(names[k..]);
    RunIs(fs, done, todo, budget, follow, cap);
    if k == |names| {
      JoinNone(names[k..]);
      assert names[..k] == names;
    } else {
      ReadOne(names, k);
      PlainAt(names, k);
      var name, after := names[k], Join(names[k + 1..]);
      assert names[..k + 1] == done + [name];
      PlainPrefix(names, k);
      PushIs(done, name);
      NamesFacts(done, name, |name|);
      RenderGrows(names, k + 1);
      LookIs(fs, done, name, after, budget, follow, cap);
      if k + 1 < |names| || follow {
        SettledAt(fs, names, follow, k);
        var quiet := Quietly(fs(Render(done + [name])));
        RunAgain(fs, names, k + 1, budget, follow, cap);
      } else {
        assert names[..k + 1] == names;
      }
    }
  }

  lemma FinalFacts(fs: Links, names: seq<Name>, follow: bool, cap: nat)
    requires Final(fs, names, follow, cap)
    ensures AllPlain(names) && |Render(names)| < cap && Settled(fs, if follow then names else Pop(names))
  {
  }

  lemma PlainAt(names: seq<Name>, k: nat)
    requires AllPlain(names) && k < |names|
    ensures names[k] != "." && names[k] != ".." && Plain(names[k])
  {
  }

  lemma PlainPrefix(names: seq<Name>, k: nat)
    requires AllPlain(names) && k <= |names|
    ensures AllPlain(names[..k])
  {
  }

  lemma SettledAt(fs: Links, names: seq<Name>, follow: bool, k: nat)
    requires Settled(fs, if follow then names else Pop(names)) && k < |names| && (k + 1 < |names| || follow)
    ensures Quiet(fs(Render(names[..k + 1])))
  {
    var t := if follow then names else Pop(names);
    assert QuietAt(fs, t, k);
    assert t[..k + 1] == names[..k + 1];
  }

  /** Resolving a resolved path again changes nothing. */
  lemma ResolutionIsIdempotent(fs: Links, path: string, follow: bool, cap: nat)
    requires var r := Resolution(fs, path, follow, cap); r.Ok? && |Render(r.names)| < PATH_MAX
    ensures var r := Resolution(fs, path, follow, cap);
            Final(fs, r.names, follow, cap) && Resolution(fs, Render(r.names), follow, cap) == r
  {
    hide Run, Join, Final;
    var names := Resolution(fs, path, follow, cap).names;
    SettledNone(fs);
    RunSettles(fs, [], path, DEPTH_MAX, follow, cap);
    FinalFacts(fs, names, follow, cap);
    RunAgain(fs, names, 0, DEPTH_MAX, follow, cap);
    assert names[..0] == [] && names[0..] == names;
    if names == [] {
      RunIs(fs, [], "/", DEPTH_MAX, follow, cap);
      SkipLess("/");
    } else {
      JoinFront(names);
    }
  }
}
