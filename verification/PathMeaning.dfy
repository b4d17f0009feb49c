/**
 What a path means, by components and without any splicing of text: a symbolic link stands for what
 its own target leads to, read from the directory that holds the link or from the root, and the
 rest of the path goes on from there.  vfs_resolve computes this meaning.
 */
module PathMeaning {
  import opened Wrappers
  import opened PathResolve

  // Where components lead, with the number of links that may still be met; too many links; or an error.
  datatype Place = At(names: seq<Name>, left: nat) | TooMany | Broken(error: Errno)

  // The components of a text.
  function Parts(s: string): (r: seq<Name>)
    ensures |r| <= |s|
    decreases |s|
  {
    var t := Skip(s);
    if t == "" then [] else [t[..SegLen(t)]] + Parts(t[SegLen(t)..])
  }

  /** The place that components lead to from a directory; the last one is followed only if `follow`. */
  function Lead(fs: Links, dir: seq<Name>, todo: seq<Name>, links: nat, follow: bool): (r: Place)
    ensures r.At? ==> r.left <= links
    decreases links, |todo|
  {
    if todo == [] then At(dir, links)
    else
      var here := First(fs, dir, todo[0], links, |todo| > 1 || follow);
      if here.At? then Lead(fs, here.names, todo[1..], here.left, follow) else here
  }

  // The place one component leads to.
  function First(fs: Links, dir: seq<Name>, name: Name, links: nat, follow: bool): (r: Place)
    ensures r.At? ==> r.left <= links
    decreases links, 0
  {
    if name == "." then At(dir, links)
    else if name == ".." then At(Pop(dir), links)
    else if !follow then At(dir + [name], links)
    else
      match fs(Render(dir + [name]))
      case Fail(e) => Broken(e)
      case NotLink => At(dir + [name], links)
      case Target(text) =>
        if text == "" then At(dir + [name], links)
        else if links == 0 then TooMany
        else Lead(fs, if text[0] == '/' then [] else dir, Parts(text), links - 1, true)
  }

  // ---------- laws of the meaning ----------

  /** A path in two halves: the second goes on where the first, followed to its end, leads. */
  lemma {:induction false} LeadOn(fs: Links, dir: seq<Name>, xs: seq<Name>, ys: seq<Name>, links: nat, follow: bool)
    ensures Lead(fs, dir, xs + ys, links, follow) ==
            var half := Lead(fs, dir, xs, links, ys != [] || follow);
            if half.At? then Lead(fs, half.names, ys, half.left, follow) else half
    decreases links, |xs|
  {
    if xs == [] {
      assert xs + ys == ys;
    } else {
      assert (xs + ys)[0] == xs[0] && (xs + ys)[1..] == xs[1..] + ys;
      assert |xs + ys| > 1 || follow <==> |xs| > 1 || (ys != [] || follow);
      var here := First(fs, dir, xs[0], links, |xs + ys| > 1 || follow);
      hide First;
      if here.At? { LeadOn(fs, here.names, xs[1..], ys, here.left, follow); }
    }
  }

  // ---------- texts and components ----------

  lemma {:induction false} SkipTwice(s: string)
    ensures Skip(Skip(s)) == Skip(s)
  {
    if s != "" && s[0] == '/' { SkipTwice(s[1..]); }
  }

  lemma PartsSkip(s: string)
    ensures Parts(Skip(s)) == Parts(s)
  {
    SkipTwice(s);
  }

  lemma {:induction false} SkipJoined(s: string, rest: string)
    ensures Skip(s + "/" + rest) == if Skip(s) == "" then Skip(rest) else Skip(s) + "/" + rest
  {
    if s == "" {
      assert s + "/" + rest == "/" + rest && ("/" + rest)[1..] == rest;
    } else if s[0] == '/' {
      assert (s + "/" + rest)[1..] == s[1..] + "/" + rest;
      SkipJoined(s[1..], rest);
    }
  }

  lemma {:induction false} SegJoined(s: string, tail: string)
    requires tail == "" || tail[0] == '/'
    ensures SegLen(s + tail) == SegLen(s)
  {
    if s == "" {
      assert s + tail == tail;
    } else if s[0] != '/' {
      assert (s + tail)[1..] == s[1..] + tail;
      SegJoined(s[1..], tail);
    }
  }

  /** Joining two texts with a slash joins their components. */
  lemma {:induction false} PartsJoined(s: string, rest: string)
    ensures Parts(s + "/" + rest) == Parts(s) + Parts(rest)
    decreases |s|
  {
    hide Skip, SegLen, Parts;
    var whole := s + "/" + rest;
    SkipJoined(s, rest);
    var t := Skip(s);
    if t == "" {
      PartsSkip(rest);
      PartsSkip(whole);
      PartsNone(s);
    } else {
      var n := SegLen(t);
      SegShape(t);
      JoinedHead(t, rest);
      PartsStep(s);
      PartsStep(whole);
      PartsJoined(t[n..], rest);
      assert [t[..n]] + (Parts(t[n..]) + Parts(rest)) == ([t[..n]] + Parts(t[n..])) + Parts(rest);
    }
  }

  // The first component does not reach into what is joined behind.
  lemma JoinedHead(t: string, rest: string)
    ensures var n := SegLen(t);
            var joined := t + "/" + rest;
            SegLen(joined) == n && joined[..n] == t[..n] && joined[n..] == t[n..] + "/" + rest
  {
    var tail := "/" + rest;
    SegJoined(t, tail);
    assert t + "/" + rest == t + tail;
  }

  lemma SegShape(t: string)
    requires t != "" && exists s: string :: t == Skip(s)
    ensures 0 < SegLen(t) <= |t|
  {
  }

  lemma PartsNone(s: string)
    requires Skip(s) == ""
    ensures Parts(s) == []
  {
  }

  /** The components of a rendered list are the list. */
  lemma {:induction false} PartsOfJoin(names: seq<Name>, k: nat)
    requires AllPlain(names) && k <= |names|
    ensures Parts(Join(names[k..])) == names[k..]
    decreases |names| - k
  {
    if k == |names| {
      JoinNone(names[k..]);
    } else {
      ReadOne(names, k);
      PartsOfJoin(names, k + 1);
    }
  }

  // ---------- vfs_resolve computes the meaning ----------

  function Answer(r: Place): Result {
    match r
    case At(names, _) => Ok(names)
    case TooMany => Err(ELOOP)
    case Broken(e) => Err(e)
  }

  // Texts of links that leave room for as many expansions as are left.
  ghost predicate ShortLinks(fs: Links, most: nat) { forall p: string :: fs(p).Target? ==> |fs(p).text| <= most }

  predicate Roomy(names: seq<Name>, work: string, links: nat, most: nat, cap: nat) {
    Room(names, work) + Slack(links, most) < cap && |work| + Slack(links, most) < PATH_MAX
  }

  // What so many expansions can add.
  function Slack(links: nat, most: nat): nat { if links == 0 then 0 else Slack(links - 1, most) + most + 2 }

  lemma PartsStep(work: string)
    requires Skip(work) != ""
    ensures var s := Skip(work);
            var after := s[SegLen(s)..];
            Parts(work) == [s[..SegLen(s)]] + Parts(after) && (Parts(after) == [] <==> Skip(after) == "")
  {
  }

  lemma LeadStep(fs: Links, dir: seq<Name>, name: Name, rest: seq<Name>, links: nat, follow: bool)
    ensures Lead(fs, dir, [name] + rest, links, follow) ==
            var here := First(fs, dir, name, links, rest != [] || follow);
            if here.At? then Lead(fs, here.names, rest, here.left, follow) else here
  {
    assert ([name] + rest)[1..] == rest;
  }

  lemma FirstIs(fs: Links, dir: seq<Name>, name: Name, links: nat, follow: bool)
    ensures var link, r := fs(Render(dir + [name])), First(fs, dir, name, links, follow);
            if name == "." then r == At(dir, links)
            else if name == ".." then r == At(Pop(dir), links)
            else if !follow then r == At(dir + [name], links)
            else if link.Fail? then r == Broken(link.error)
            else if link.NotLink? || link.text == "" then r == At(dir + [name], links)
            else if links == 0 then r == TooMany
            else r == Lead(fs, if link.text[0] == '/' then [] else dir, Parts(link.text), links - 1, true)
  {
  }

  lemma LeadEnd(fs: Links, dir: seq<Name>, links: nat, follow: bool)
    ensures Lead(fs, dir, [], links, follow) == At(dir, links)
  {
  }

  // The text after an expansion has the components of the target and then the remaining ones.
  lemma PartsSpliced(text: string, after: string)
    ensures Parts(Spliced(text, Skip(after))) == Parts(text) + Parts(after)
  {
    PartsSkip(after);
    if Skip(after) == "" {
      PartsNone(after);
    } else {
      PartsJoined(text, Skip(after));
    }
  }

  // A link in the middle or at the end of a path: its target first, then the rest.
  lemma LinkMeans(fs: Links, dir: seq<Name>, text: string, after: string, links: nat, follow: bool)
    requires Skip(after) == "" ==> follow
    ensures Lead(fs, dir, Parts(Spliced(text, Skip(after))), links, follow) ==
            var here := Lead(fs, dir, Parts(text), links, true);
            if here.At? then Lead(fs, here.names, Parts(after), here.left, follow) else here
  {
    PartsSpliced(text, after);
    PartsSkip(after);
    PartsEmpty(after);
    LeadOn(fs, dir, Parts(text), Parts(after), links, follow);
  }

  lemma PartsEmpty(s: string)
    ensures Parts(s) == [] <==> Skip(s) == ""
  {
  }

  /** The loop gives up for lack of room, or answers with the meaning of the path. */
  lemma {:induction false} RunMeans(fs: Links, names: seq<Name>, work: string, links: nat, follow: bool, cap: nat)
    ensures var r := Run(fs, names, work, links, follow, cap);
            r == Err(ENAMETOOLONG) || r == Answer(Lead(fs, names, Parts(work), links, follow))
    decreases links, |work|
  {
    hide *;
    RunIs(fs, names, work, links, follow, cap);
    AnswerIs(Lead(fs, names, Parts(work), links, follow));
    var s := Skip(work);
    if s == "" {
      PartsNone(work);
      LeadEnd(fs, names, links, follow);
    } else {
      var n := SegLen(s);
      var name, after := s[..n], s[n..];
      PartsStep(work);
      LeadStep(fs, names, name, Parts(after), links, follow);
      FirstIs(fs, names, name, links, Parts(after) != [] || follow);
      if name == "." {
        RunMeans(fs, names, after, links, follow, cap);
      } else if name == ".." {
        RunMeans(fs, Pop(names), after, links, follow, cap);
      } else if Need(names, n) < cap {
        if Skip(after) == "" && !follow {
          LeadEnd(fs, names + [name], links, follow);
        } else {
          LookMeans(fs, names, name, after, links, follow, cap, |work|);
        }
      }
    }
  }

  lemma {:induction false} LookMeans(fs: Links, names: seq<Name>, name: Name, after: string, links: nat, follow: bool,
      cap: nat, size: nat)
    requires |after| < size && name != "." && name != ".." && (Parts(after) == [] <==> Skip(after) == "")
             && (Skip(after) == "" ==> follow)
    ensures var r, here := Look(fs, names, name, after, links, follow, cap), First(fs, names, name, links, true);
            r == Err(ENAMETOOLONG)
                || r == Answer(if here.At? then Lead(fs, here.names, Parts(after), here.left, follow) else here)
    decreases links, size, 0
  {
    hide *;
    LookIs(fs, names, name, after, links, follow, cap);
    FirstIs(fs, names, name, links, true);
    var link := fs(Render(names + [name]));
    AnswerIs(First(fs, names, name, links, true));
    if !link.Fail? {
      if link.NotLink? || link.text == "" {
        RunMeans(fs, names + [name], after, links, follow, cap);
      } else if links > 0 && |Spliced(link.text, Skip(after))| < PATH_MAX {
        var base := if link.text[0] == '/' then [] else names;
        RunMeans(fs, base, Spliced(link.text, Skip(after)), links - 1, follow, cap);
        LinkMeans(fs, base, link.text, after, links - 1, follow);
      }
    }
  }

  lemma AnswerIs(r: Place)
    ensures r.TooMany? ==> Answer(r) == Err(ELOOP)
    ensures r.Broken? ==> Answer(r) == Err(r.error)
    ensures r.At? ==> Answer(r) == Ok(r.names)
  {
  }

  // ---------- with room there is no giving up ----------

  lemma RoomySplice(names: seq<Name>, base: seq<Name>, work: string, text: string, links: nat, most: nat, cap: nat)
    requires AllPlain(names) && (base == [] || base == names) && Roomy(names, work, links, most, cap) && links > 0
             && Skip(work) != "" && |text| <= most
    ensures var s := Skip(work); var spliced := Spliced(text, Skip(s[SegLen(s)..]));
            Roomy(base, spliced, links - 1, most, cap) && |spliced| < PATH_MAX
  {
    SpliceSizes(names, base, work, text);
    hide Room, Skip, SegLen, Spliced;
  }

  lemma SpliceSizes(names: seq<Name>, base: seq<Name>, work: string, text: string)
    requires (base == [] || base == names) && Skip(work) != ""
    ensures var s := Skip(work); var spliced := Spliced(text, Skip(s[SegLen(s)..]));
            |spliced| <= |text| + |work| && Room(base, spliced) <= Room(names, work) + |text| + 1
  {
    hide Render;
    var s := Skip(work);
    assert s[0] != '/' && SegLen(s) > 0;
    assert |Skip(s[SegLen(s)..])| < |s| <= |work|;
    hide Skip, SegLen;
  }

  lemma RoomyOn(names: seq<Name>, next: seq<Name>, work: string, after: string, links: nat, most: nat, cap: nat)
    requires Roomy(names, work, links, most, cap) && Room(next, after) <= Room(names, work) && |after| <= |work|
    ensures Roomy(next, after, links, most, cap)
  {
  }

  lemma RoomyNow(names: seq<Name>, work: string, links: nat, most: nat, cap: nat)
    requires Roomy(names, work, links, most, cap)
    ensures Room(names, work) < cap
  {
  }

  /** Where link texts are short enough for every expansion that is left, the answer is the meaning. */
  lemma {:induction false} RunExact(fs: Links, names: seq<Name>, work: string, links: nat, follow: bool, cap: nat,
      most: nat)
    requires AllPlain(names) && ShortLinks(fs, most) && Roomy(names, work, links, most, cap)
    ensures Run(fs, names, work, links, follow, cap) == Answer(Lead(fs, names, Parts(work), links, follow))
    decreases links, |work|
  {
    hide *;
    RunIs(fs, names, work, links, follow, cap);
    AnswerIs(Lead(fs, names, Parts(work), links, follow));
    var s := Skip(work);
    if s == "" {
      PartsNone(work);
      LeadEnd(fs, names, links, follow);
    } else {
      var n := SegLen(s);
      var name, after := s[..n], s[n..];
      PartsStep(work);
      LeadStep(fs, names, name, Parts(after), links, follow);
      FirstIs(fs, names, name, links, Parts(after) != [] || follow);
      RoomIs(names, work);
      RoomyNow(names, work, links, most, cap);
      NamePlain(s);
      NamesFacts(names, name, n);
      if name == "." {
        RoomyOn(names, names, work, after, links, most, cap);
        RunExact(fs, names, after, links, follow, cap, most);
      } else if name == ".." {
        RoomyOn(names, Pop(names), work, after, links, most, cap);
        RunExact(fs, Pop(names), after, links, follow, cap, most);
      } else if Skip(after) == "" && !follow {
        LeadEnd(fs, names + [name], links, follow);
      } else {
        RoomyOn(names, names + [name], work, after, links, most, cap);
        LookExact(fs, names, name, work, after, links, follow, cap, most);
      }
    }
  }

  lemma {:induction false} LookExact(fs: Links, names: seq<Name>, name: Name, work: string, after: string, links: nat,
      follow: bool, cap: nat, most: nat)
    requires AllPlain(names) && AllPlain(names + [name]) && name != "." && name != ".." && ShortLinks(fs, most)
             && Roomy(names, work, links, most, cap)
    requires var s := Skip(work); s != "" && after == s[SegLen(s)..] && |after| < |work|
    requires Roomy(names + [name], after, links, most, cap) && (Skip(after) == "" ==> follow)
    ensures var r, here := Look(fs, names, name, after, links, follow, cap), First(fs, names, name, links, true);
            r == Answer(if here.At? then Lead(fs, here.names, Parts(after), here.left, follow) else here)
    decreases links, |work|, 0
  {
    hide *;
    LookIs(fs, names, name, after, links, follow, cap);
    FirstIs(fs, names, name, links, true);
    var link := fs(Render(names + [name]));
    AnswerIs(First(fs, names, name, links, true));
    if !link.Fail? {
      if link.NotLink? || link.text == "" {
        RunExact(fs, names + [name], after, links, follow, cap, most);
      } else if links > 0 {
        var base := if link.text[0] == '/' then [] else names;
        ShortAt(fs, most, Render(names + [name]));
        NonePlain();
        RoomySplice(names, base, work, link.text, links, most, cap);
        RunExact(fs, base, Spliced(link.text, Skip(after)), links - 1, follow, cap, most);
        LinkMeans(fs, base, link.text, after, links - 1, follow);
      }
    }
  }

  lemma ShortAt(fs: Links, most: nat, p: string)
    requires ShortLinks(fs, most)
    ensures fs(p).Target? ==> |fs(p).text| <= most
  {
  }

  lemma NonePlain()
    ensures AllPlain([])
  {
  }

  // ---------- vfs_resolve ----------

  /**
   vfs_resolve of any absolute path is its meaning with at most eight links, or a complaint that a
   text is too long; and it is the meaning itself where the texts are short.
   */
  lemma ResolutionMeans(fs: Links, path: string, follow: bool, cap: nat, most: nat)
    ensures var r := Resolution(fs, path, follow, cap);
            if cap < 2 || path == "" || path[0] != '/' then r == Err(EINVAL)
            else r == Err(ENAMETOOLONG) || r == Answer(Lead(fs, [], Parts(path), DEPTH_MAX, follow))
    ensures cap >= 2 && path != "" && path[0] == '/' && ShortLinks(fs, most) && |path| + 8 * (most + 2) < PATH_MAX
            && |path| + 8 * (most + 2) < cap ==>
              Resolution(fs, path, follow, cap) == Answer(Lead(fs, [], Parts(path), DEPTH_MAX, follow))
  {
    hide Run, Lead, Parts;
    RunMeans(fs, [], path, DEPTH_MAX, follow, cap);
    SlackIs(8, most);
    if path != "" && path[0] == '/' && ShortLinks(fs, most) && |path| + 8 * (most + 2) < PATH_MAX
        && |path| + 8 * (most + 2) < cap {
      RunExact(fs, [], path, DEPTH_MAX, follow, cap, most);
    }
  }

  lemma {:induction false} SlackIs(links: nat, most: nat)
    ensures Slack(links, most) == links * (most + 2)
  {
    if links > 0 {
      SlackIs(links - 1, most);
      assert links * (most + 2) == (links - 1) * (most + 2) + (most + 2);
    }
  }

  /**
   Paths compose: where the front of a path leads somewhere, the whole path leads where the rest
   leads from there, written as a path of its own, with the links that are left.
   */
  lemma PathsCompose(fs: Links, front: string, rest: string, links: nat, follow: bool)
    requires Skip(rest) != ""
    ensures Lead(fs, [], Parts(front + "/" + rest), links, follow) ==
            var half := Lead(fs, [], Parts(front), links, true);
            if half.At? then Lead(fs, half.names, Parts(rest), half.left, follow) else half
  {
    PartsJoined(front, rest);
    PartsEmpty(rest);
    LeadOn(fs, [], Parts(front), Parts(rest), links, follow);
  }

  /** A relative target is read from the directory that holds the link, an absolute one from the root. */
  lemma LinkStandsForItsTarget(fs: Links, dir: seq<Name>, name: Name, rest: seq<Name>, links: nat, follow: bool)
    requires Plain(name) && fs(Render(dir + [name])).Target? && fs(Render(dir + [name])).text != "" && links > 0
             && (rest != [] || follow)
    ensures var text := fs(Render(dir + [name])).text;
            Lead(fs, dir, [name] + rest, links, follow) ==
            Lead(fs, if text[0] == '/' then [] else dir, Parts(text) + rest, links - 1, follow)
  {
    var text := fs(Render(dir + [name])).text;
    LeadStep(fs, dir, name, rest, links, follow);
    FirstIs(fs, dir, name, links, true);
    LeadOn(fs, if text[0] == '/' then [] else dir, Parts(text), rest, links - 1, follow);
    hide Lead, First;
  }
}
