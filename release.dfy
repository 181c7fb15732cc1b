/**
  `get_latest_release` (app/api/metrics.py:18-27): the latest release of the
  tracked node software, read from the decoded JSON of a release-listing reply.
  The HTTP fetch is not modelled; its decoded body is the `data` parameter.
 */
module Release {
  import opened Wrappers

  /** The only project whose releases are looked up. */
  const TrackedProject: string := "avalanchego"

  /** The keys of the returned info record. */
  const InfoKeys: set<string> := {"name", "tag_name", "published_at", "version"}

  /** What `get_latest_release` can end in. */
  datatype ReleaseOutcome =
    | NotTracked                               // returns False
    | Release(info: map<string, string>)       // returns the info dict
    | ReleaseFailed(error: ReleaseError)       // raises

  datatype ReleaseError =
    | KeyMissing(key: string)                  // KeyError on the decoded JSON
    | TagWithoutV(tag: string)                 // IndexError on split('v')[1]

  /** Python's `s.split(c)`: the pieces of `s` between occurrences of `c`. */
  function Split(s: string, c: char): (parts: seq<string>)
    ensures |parts| >= 1
  {
    if s == [] then [[]]
    else
      var tail := Split(s[1..], c);
      if s[0] == c then [[]] + tail else [[s[0]] + tail[0]] + tail[1..]
  }

  /** Python's `c.join(parts)`. */
  function Join(parts: seq<string>, c: char): string {
    if |parts| == 0 then []
    else if |parts| == 1 then parts[0]
    else parts[0] + [c] + Join(parts[1..], c)
  }

  /** Joining the pieces back with the separator gives the original text. */
  lemma {:induction false} JoinSplit(s: string, c: char)
    ensures Join(Split(s, c), c) == s
  {
    if s != [] {
      var tail := Split(s[1..], c);
      JoinSplit(s[1..], c);
      if s[0] != c && |tail| > 1 {
        assert Join(tail, c) == tail[0] + [c] + Join(tail[1..], c);
        assert ([[s[0]] + tail[0]] + tail[1..])[1..] == tail[1..];
        assert s == [s[0]] + s[1..];
      }
    }
  }

  /** No piece contains the separator. */
  lemma {:induction false} SplitPiecesFree(s: string, c: char)
    ensures forall i :: 0 <= i < |Split(s, c)| ==> c !in Split(s, c)[i]
  {
    if s != [] {
      SplitPiecesFree(s[1..], c);
      var tail := Split(s[1..], c);
      if s[0] != c {
        assert c !in tail[0];
        var parts := Split(s, c);
        forall i | 0 <= i < |parts| ensures c !in parts[i] {
          if i > 0 { assert parts[i] == tail[i]; }
        }
      }
    }
  }

  /** A first piece free of the separator splits off on its own. */
  lemma {:induction false} SplitAfterPrefix(p: string, c: char, x: string)
    requires c !in p
    ensures Split(p + [c] + x, c) == [p] + Split(x, c)
  {
    if p != [] {
      SplitAfterPrefix(p[1..], c, x);
      assert (p + [c] + x)[1..] == p[1..] + [c] + x;
      assert [p[0]] + p[1..] == p;
    } else {
      assert p + [c] + x == [c] + x;
    }
  }

  /** The first piece of `v + rest` is `v` when `v` is separator-free and `rest` starts at a separator. */
  lemma {:induction false} SplitHead(v: string, c: char, rest: string)
    requires c !in v
    requires rest == [] || rest[0] == c
    ensures Split(v + rest, c)[0] == v
  {
    if v != [] {
      SplitHead(v[1..], c, rest);
      assert (v + rest)[1..] == v[1..] + rest;
      assert [v[0]] + v[1..] == v;
    } else {
      assert v + rest == rest;
    }
  }

  /** `tag.split('v')[1]`, or None where Python raises IndexError. */
  function TagVersion(tag: string): Option<string> {
    var parts := Split(tag, 'v');
    if |parts| < 2 then None else Some(parts[1])
  }

  /** `tag` is `p`, then the first 'v', then `v`, then nothing or the second 'v'. */
  ghost predicate VersionSlot(tag: string, p: string, v: string, rest: string) {
    tag == p + ['v'] + v + rest && 'v' !in p && 'v' !in v && (rest == [] || rest[0] == 'v')
  }

  /** The version is missing exactly when the tag has no 'v'. */
  lemma {:induction false} TagVersionMissing(tag: string)
    ensures TagVersion(tag).None? <==> 'v' !in tag
  {
    var parts := Split(tag, 'v');
    JoinSplit(tag, 'v');
    SplitPiecesFree(tag, 'v');
    if |parts| >= 2 {
      assert tag == parts[0] + ['v'] + Join(parts[1..], 'v');
      assert tag[|parts[0]|] == 'v';
    }
  }

  /** The text between the first and the second 'v' is the version. */
  lemma TagVersionOfSlot(tag: string, p: string, v: string, rest: string)
    requires VersionSlot(tag, p, v, rest)
    ensures TagVersion(tag) == Some(v)
  {
    SplitAfterPrefix(p, 'v', v + rest);
    assert tag == p + ['v'] + (v + rest);
    SplitHead(v, 'v', rest);
  }

  /** Every version found sits between the first and the second 'v'. */
  lemma SlotOfTagVersion(tag: string)
    requires TagVersion(tag).Some?
    ensures exists p, rest :: VersionSlot(tag, p, TagVersion(tag).value, rest)
  {
    var parts := Split(tag, 'v');
    JoinSplit(tag, 'v');
    SplitPiecesFree(tag, 'v');
    var v := parts[1];
    var rest := if |parts| > 2 then ['v'] + Join(parts[2..], 'v') else [];
    assert parts[1..][1..] == parts[2..];
    assert Join(parts[1..], 'v') == v + rest;
    assert VersionSlot(tag, parts[0], v, rest);
  }

  lemma ExampleTag()
    ensures TagVersion("v1.10.3") == Some("1.10.3")
  {
    TagVersionOfSlot("v1.10.3", "", "1.10.3", "");
  }

  /** `get_latest_release(name)` with the decoded release JSON as `data`. */
  function GetLatestRelease(name: string, data: map<string, string>): (r: ReleaseOutcome)
    ensures r.NotTracked? <==> name != TrackedProject
    ensures r.Release? <==>
      name == TrackedProject && {"name", "tag_name", "published_at"} <= data.Keys && 'v' in data["tag_name"]
    ensures r.Release? ==>
      && r.info.Keys == InfoKeys
      && (forall k :: k in {"name", "tag_name", "published_at"} ==> r.info[k] == data[k])
      && Some(r.info["version"]) == TagVersion(data["tag_name"])
    ensures r == ReleaseFailed(KeyMissing("tag_name")) <==> name == TrackedProject && "tag_name" !in data
  {
    if name != TrackedProject then NotTracked
    else if "tag_name" !in data then ReleaseFailed(KeyMissing("tag_name"))
    else
      TagVersionMissing(data["tag_name"]);
      match TagVersion(data["tag_name"])
      case None => ReleaseFailed(TagWithoutV(data["tag_name"]))
      case Some(version) =>
        if "name" !in data then ReleaseFailed(KeyMissing("name"))
        else if "published_at" !in data then ReleaseFailed(KeyMissing("published_at"))
        else Release(map["name" := data["name"], "tag_name" := data["tag_name"],
                         "published_at" := data["published_at"], "version" := version])
  }
}
