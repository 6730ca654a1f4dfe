/**
 * The render-diff pull-request comment of package `github` (comments.go): find the first comment
 * that carries the marker, walking the comment pages in order, and edit it, or create a new one.
 *
 * The comments service is an in-memory list of comments, after `fakeCommentsService`, that serves
 * pages of the requested size and records edits and creations; which calls fail is part of its state.
 */
module GithubComments {
  import opened Wrappers
  import Strs

  /** The hidden marker that identifies the tool's comment. */
  const CommentMarker: string := "<!-- render-diff-comment -->"

  /** The error a failed page listing reports. */
  const ListError: string := "listing comments failed"

  /** The error a failed edit reports. */
  const EditError: string := "editing comment failed"

  /** The error a failed creation reports. */
  const CreateError: string := "creating comment failed"

  /** The page size `findMarkedComment` asks for. */
  const PerPage: nat := 100

  /** An issue comment; the service may return one without a body. */
  datatype Comment = Comment(id: int, body: Option<string>)

  predicate Marked(c: Comment) {
    c.body.Some? && Strs.Contains(c.body.value, CommentMarker)
  }

  /** The index of the first marked comment, or -1 when none is marked. */
  function FirstMarked(cs: seq<Comment>): (r: int)
    ensures -1 <= r < |cs|
    ensures r == -1 <==> forall k :: 0 <= k < |cs| ==> !Marked(cs[k])
    ensures r >= 0 ==> Marked(cs[r]) && forall k :: 0 <= k < r ==> !Marked(cs[k])
  {
    if |cs| == 0 then -1
    else if Marked(cs[0]) then 0
    else
      var r := FirstMarked(cs[1..]);
      assert forall k :: 1 <= k < |cs| ==> cs[k] == cs[1..][k - 1];
      if r == -1 then -1 else r + 1
  }

  /** The id of the first marked comment, or 0 when there is none. */
  function MarkedId(cs: seq<Comment>): int {
    var i := FirstMarked(cs);
    if i >= 0 then cs[i].id else 0
  }

  /** How many pages listing `n` comments takes (an empty list is one empty page). */
  function NumPages(n: nat): nat {
    if n == 0 then 1 else (n + PerPage - 1) / PerPage
  }

  /** The last page `findMarkedComment` lists: the one holding the first marked comment, or the last one. */
  function LastPageRead(cs: seq<Comment>): nat {
    var i := FirstMarked(cs);
    if i >= 0 then i / PerPage + 1 else NumPages(|cs|)
  }

  /**
   * What `findMarkedComment` returns: the first marked comment's id (0 when none), unless one of
   * the pages it has to list fails.
   */
  function FindSpec(cs: seq<Comment>, failPage: int): Result<int, string> {
    if 1 <= failPage <= LastPageRead(cs) then Failure(ListError)
    else Success(MarkedId(cs))
  }

  /** Every comment whose id is `id` gets `body`. */
  function EditBody(cs: seq<Comment>, id: int, body: string): (r: seq<Comment>)
    ensures |r| == |cs|
    ensures forall k :: 0 <= k < |cs| ==> r[k] == (if cs[k].id == id then Comment(id, Some(body)) else cs[k])
  {
    if |cs| == 0 then []
    else [if cs[0].id == id then Comment(id, Some(body)) else cs[0]] + EditBody(cs[1..], id, body)
  }

  /** The comment list after a successful `UpsertComment(body)`. */
  function Upserted(cs: seq<Comment>, nextId: int, body: string): seq<Comment> {
    var id := MarkedId(cs);
    if id != 0 then EditBody(cs, id, body) else cs + [Comment(nextId, Some(body))]
  }

  /**
   * Once a marked body has been upserted, the next upsert edits instead of creating: the comment
   * list does not grow again. This needs the service's ids to be non-zero, since id 0 stands for
   * "not found".
   */
  lemma SecondUpsertEdits(cs: seq<Comment>, nextId: int, body: string, body2: string)
    requires forall k :: 0 <= k < |cs| ==> cs[k].id != 0
    requires nextId != 0
    requires Strs.Contains(body, CommentMarker)
    ensures MarkedId(Upserted(cs, nextId, body)) != 0
    ensures |Upserted(Upserted(cs, nextId, body), nextId + 1, body2)| == |Upserted(cs, nextId, body)|
  {
    var cs1 := Upserted(cs, nextId, body);
    var id := MarkedId(cs);
    if id != 0 {
      var i := FirstMarked(cs);
      assert cs1[i] == Comment(id, Some(body));
      assert Marked(cs1[i]);
      var j := FirstMarked(cs1);
      assert j >= 0;
      assert cs1[j].id != 0 by {
        assert cs1[j] == (if cs[j].id == id then Comment(id, Some(body)) else cs[j]);
      }
    } else {
      assert Marked(cs1[|cs|]);
      var j := FirstMarked(cs1);
      assert j >= 0;
      assert cs1[j].id != 0 by {
        if j < |cs| {
          assert cs1[j] == cs[j];
        }
      }
    }
  }

  /** Comments without the marker are never edited. */
  lemma UnmarkedUntouched(cs: seq<Comment>, nextId: int, body: string, k: int)
    requires forall j :: 0 <= j < |cs| ==> cs[j].id != 0
    requires 0 <= k < |cs| && cs[k].id != MarkedId(cs)
    ensures Upserted(cs, nextId, body)[k] == cs[k]
  {
  }

  /** `NewCommentClient`'s "owner/repo" split: at the first "/", and an error without one. */
  function SplitRepo(full: string): (r: Result<(string, string), string>)
    ensures r.Success? <==> '/' in full
    ensures r.Success? ==> r.value.0 + "/" + r.value.1 == full && '/' !in r.value.0
  {
    var i := Strs.IndexOf(full, '/');
    if i < 0 then Failure("invalid repo format, expected owner/repo")
    else
      assert full == full[..i] + "/" + full[i + 1..];
      Success((full[..i], full[i + 1..]))
  }

  /** The split is the inverse of joining an owner without "/" to any repository name. */
  lemma SplitRepoRoundTrip(owner: string, repo: string)
    requires '/' !in owner
    ensures SplitRepo(owner + "/" + repo) == Success((owner, repo))
  {
    var full := owner + "/" + repo;
    var i := Strs.IndexOf(full, '/');
    assert full[..|owner|] == owner && full[|owner|] == '/';
    assert forall k :: 0 <= k < |owner| ==> full[k] == owner[k] && full[k] != '/';
    assert i == |owner|;
    assert full[i + 1..] == repo;
  }

  /**
   * An in-memory comments service for one pull request: its comments in page order, the next id
   * it hands out, what was created and edited, and which calls fail (the listing of page
   * `failPage`, every edit, every creation).
   */
  class Comments {
    var comments: seq<Comment>
    var nextId: int
    var created: seq<string>
    var edited: map<int, string>
    const failPage: int
    const editFails: bool
    const createFails: bool

    constructor(comments: seq<Comment>, nextId: int, failPage: int, editFails: bool, createFails: bool)
      ensures this.comments == comments && this.nextId == nextId && created == [] && edited == map[]
      ensures this.failPage == failPage && this.editFails == editFails && this.createFails == createFails
    {
      this.comments := comments;
      this.nextId := nextId;
      created := [];
      edited := map[];
      this.failPage := failPage;
      this.editFails := editFails;
      this.createFails := createFails;
    }

    /**
     * `ListComments` with the given page number (0 asks for the first page): the page's comments
     * and the next page number, 0 on the last page.
     */
    method List(page: nat, perPage: nat) returns (r: Result<(seq<Comment>, nat), string>)
      requires perPage > 0
      ensures var p := if page == 0 then 1 else page;
        (r.Failure? <==> p == failPage) && (r.Failure? ==> r.error == ListError)
        && (r.Success? ==>
              r.value.0 == comments[Min((p - 1) * perPage, |comments|)..Min(p * perPage, |comments|)]
              && r.value.1 == (if p * perPage < |comments| then p + 1 else 0))
    {
      var p := if page == 0 then 1 else page;
      if p == failPage {
        return Failure(ListError);
      }
      var items := comments[Min((p - 1) * perPage, |comments|)..Min(p * perPage, |comments|)];
      return Success((items, if p * perPage < |comments| then p + 1 else 0));
    }

    /** `EditComment`: every comment with that id gets the new body. */
    method Edit(id: int, body: string) returns (err: Option<string>)
      modifies this`comments, this`edited
      ensures err.Some? <==> editFails
      ensures err.Some? ==> err.value == EditError
      ensures err.Some? ==> comments == old(comments) && edited == old(edited)
      ensures err.None? ==> comments == EditBody(old(comments), id, body) && edited == old(edited)[id := body]
    {
      if editFails {
        return Some(EditError);
      }
      edited := edited[id := body];
      comments := EditBody(comments, id, body);
      return None;
    }

    /** `CreateComment`: appended with the next id. */
    method Create(body: string) returns (err: Option<string>)
      modifies this`comments, this`created, this`nextId
      ensures err.Some? <==> createFails
      ensures err.Some? ==> err.value == CreateError
      ensures err.Some? ==> comments == old(comments) && created == old(created) && nextId == old(nextId)
      ensures err.None? ==> comments == old(comments) + [Comment(old(nextId), Some(body))]
      ensures err.None? ==> created == old(created) + [body] && nextId == old(nextId) + 1
    {
      if createFails {
        return Some(CreateError);
      }
      comments := comments + [Comment(nextId, Some(body))];
      created := created + [body];
      nextId := nextId + 1;
      return None;
    }
  }

  function Min(a: int, b: int): int {
    if a <= b then a else b
  }

  /** The first marked comment is the one found at `k` when everything before it is unmarked. */
  lemma FirstMarkedAt(cs: seq<Comment>, k: int)
    requires 0 <= k < |cs| && Marked(cs[k])
    requires forall j :: 0 <= j < k ==> !Marked(cs[j])
    ensures FirstMarked(cs) == k
  {
  }

  /** A comment at `k` lies on page `k / PerPage + 1`. */
  lemma PageOf(k: int, p: int)
    requires p >= 1 && (p - 1) * PerPage <= k < p * PerPage
    ensures k / PerPage + 1 == p
  {
  }

  /** A comment at or after the start of page `p` lies on page `p` or later. */
  lemma PageAtLeast(k: int, p: int)
    requires p >= 1 && (p - 1) * PerPage <= k
    ensures k / PerPage + 1 >= p
  {
  }

  /** Page `p` starts before the end of the list, so the list has at least `p` pages. */
  lemma PagesAtLeast(n: nat, p: int)
    requires p == 1 || (p >= 1 && (p - 1) * PerPage < n)
    ensures NumPages(n) >= p
  {
  }

  /** Listing stopped on page `p`, whose end reaches the last comment. */
  lemma LastPage(n: nat, p: int)
    requires p >= 1 && ((p - 1) * PerPage < n || p == 1) && n <= p * PerPage
    ensures NumPages(n) == p
  {
  }

  /**
   * `findMarkedComment`: list page after page, return the id of the first comment whose body holds
   * the marker, stop after the page whose next page is 0, and return any listing error at once.
   */
  method FindMarkedComment(svc: Comments) returns (r: Result<int, string>)
    ensures r == FindSpec(svc.comments, svc.failPage)
  {
    var cs := svc.comments;
    var page: nat := 0;
    while true
      invariant page == 0 || (page >= 2 && (page - 1) * PerPage < |cs|)
      invariant var p := if page == 0 then 1 else page;
        (forall k :: 0 <= k < (p - 1) * PerPage ==> !Marked(cs[k]))
        && !(1 <= svc.failPage < p)
      decreases |cs| - (if page == 0 then 0 else (page - 1) * PerPage)
    {
      var p := if page == 0 then 1 else page;
      var listed := svc.List(page, PerPage);
      if listed.Failure? {
        FailedPageIsSpec(cs, svc.failPage, p);
        return Failure(listed.error);
      }
      var (items, next) := listed.value;
      var start := (p - 1) * PerPage;
      assert start + |items| <= |cs| && items == cs[start..start + |items|];
      var found := ScanPage(items, cs, start);
      if found >= 0 {
        FoundIsSpec(cs, svc.failPage, p, start + found);
        return Success(items[found].id);
      }
      if next == 0 {
        EndIsSpec(cs, svc.failPage, p);
        return Success(0);
      }
      page := next;
    }
  }

  /** Listing page `p` failed after the earlier pages held no marked comment: the search fails. */
  lemma FailedPageIsSpec(cs: seq<Comment>, failPage: int, p: int)
    requires p >= 1 && (p == 1 || (p - 1) * PerPage < |cs|) && p == failPage
    requires forall k :: 0 <= k < (p - 1) * PerPage ==> !Marked(cs[k])
    ensures FindSpec(cs, failPage) == Failure(ListError)
  {
    if FirstMarked(cs) >= 0 {
      PageAtLeast(FirstMarked(cs), p);
    } else {
      PagesAtLeast(|cs|, p);
    }
  }

  /** The first marked comment was found on page `p`, and no page up to `p` failed. */
  lemma FoundIsSpec(cs: seq<Comment>, failPage: int, p: int, i: int)
    requires p >= 1 && (p - 1) * PerPage <= i < p * PerPage && i < |cs|
    requires Marked(cs[i]) && forall k :: 0 <= k < i ==> !Marked(cs[k])
    requires !(1 <= failPage <= p)
    ensures FindSpec(cs, failPage) == Success(cs[i].id)
  {
    FirstMarkedAt(cs, i);
    PageOf(i, p);
  }

  /** Page `p` was the last one, no comment is marked, and no page up to `p` failed. */
  lemma EndIsSpec(cs: seq<Comment>, failPage: int, p: int)
    requires p >= 1 && ((p - 1) * PerPage < |cs| || p == 1) && |cs| <= p * PerPage
    requires forall k :: 0 <= k < |cs| ==> !Marked(cs[k])
    requires !(1 <= failPage <= p)
    ensures FindSpec(cs, failPage) == Success(0)
  {
    assert FirstMarked(cs) == -1;
    LastPage(|cs|, p);
  }

  /** The scan of one page: the index of its first marked comment, or -1 when none is marked. */
  method ScanPage(items: seq<Comment>, ghost cs: seq<Comment>, ghost start: nat) returns (found: int)
    requires start + |items| <= |cs| && items == cs[start..start + |items|]
    requires forall k :: 0 <= k < start ==> !Marked(cs[k])
    ensures -1 <= found < |items|
    ensures found >= 0 ==> Marked(items[found]) && forall k :: 0 <= k < start + found ==> !Marked(cs[k])
    ensures found == -1 ==> forall k :: 0 <= k < start + |items| ==> !Marked(cs[k])
  {
    for j := 0 to |items|
      invariant forall k :: 0 <= k < start + j ==> !Marked(cs[k])
    {
      assert items[j] == cs[start + j];
      if items[j].body.Some? && Strs.Contains(items[j].body.value, CommentMarker) {
        return j;
      }
    }
    return -1;
  }

  /**
   * `UpsertComment(body)`: a listing error aborts; otherwise the first marked comment is edited,
   * or, when there is none, one comment is created. Nothing else changes. Each error is wrapped
   * with the step it came from.
   */
  method UpsertComment(svc: Comments, body: string) returns (err: Option<string>)
    modifies svc`comments, svc`edited, svc`created, svc`nextId
    ensures err.Some? ==>
              svc.comments == old(svc.comments) && svc.edited == old(svc.edited)
              && svc.created == old(svc.created) && svc.nextId == old(svc.nextId)
    ensures FindSpec(old(svc.comments), svc.failPage).Failure? ==>
              err == Some("finding existing comment: " + FindSpec(old(svc.comments), svc.failPage).error)
              && svc.comments == old(svc.comments) && svc.created == old(svc.created)
              && svc.edited == old(svc.edited)
    ensures FindSpec(old(svc.comments), svc.failPage).Success? && MarkedId(old(svc.comments)) != 0 ==>
              svc.created == old(svc.created)
              && (err.Some? <==> svc.editFails)
              && (err.Some? ==> err.value == "updating comment " + Strs.IntToString(MarkedId(old(svc.comments))) + ": " + EditError)
              && (err.None? ==> svc.edited == old(svc.edited)[MarkedId(old(svc.comments)) := body])
    ensures FindSpec(old(svc.comments), svc.failPage).Success? && MarkedId(old(svc.comments)) == 0 ==>
              svc.edited == old(svc.edited)
              && (err.Some? <==> svc.createFails)
              && (err.Some? ==> err.value == "creating comment: " + CreateError)
              && (err.None? ==> svc.created == old(svc.created) + [body])
    ensures err.None? ==>
              svc.comments == Upserted(old(svc.comments), old(svc.nextId), body)
              && svc.nextId == old(svc.nextId) + (if MarkedId(old(svc.comments)) == 0 then 1 else 0)
  {
    var found := FindMarkedComment(svc);
    if found.Failure? {
      return Some("finding existing comment: " + found.error);
    }
    var id := found.value;
    if id != 0 {
      err := svc.Edit(id, body);
      if err.Some? {
        err := Some("updating comment " + Strs.IntToString(id) + ": " + err.value);
      }
      return;
    }
    err := svc.Create(body);
    if err.Some? {
      err := Some("creating comment: " + err.value);
    }
  }
}
