/** The file-change context behind approval prompts (client_file_approval.go). */
module FileApprovals {
  import opened Basics
  import opened Events

  datatype Key = Key(thread: string, turn: string, item: string)
  datatype Context = Context(changes: seq<FileChangePart>, invalid: bool)
  type Cache = map<Key, Context>

  predicate Identified(ev: ThreadEvent)
    requires ev.ItemStarted?
  {
    ev.thread != "" && ev.turn != "" && ev.item != ""
  }

  /** rememberFileApproval as a function of the cache. */
  function Remembered(m: Cache, ev: ThreadEvent): Cache {
    match ev
    case ItemStarted(thread, turn, item, file) =>
      if file.Some? && Identified(ev) then m[Key(thread, turn, item) := Context(file.value, false)] else m
    case ItemCompleted(thread, turn, item) => m - {Key(thread, turn, item)}
    case FileChangePatchUpdated(thread, turn, item, patch) =>
      if turn == "" || item == "" then map[]
      else if Key(thread, turn, item) in m then m[Key(thread, turn, item) := Context(patch.changes, patch.invalid)]
      else m
    case _ =>
      if IsTurnTerminus(ev, "") then
        map k | k in m && !(k.thread == ev.thread && k.turn == TurnOfTerminus(ev)) :: m[k]
      else m
  }

  class FileChangeApprovalRequest {
    var changes: seq<FileChangePart>
    var path: string
    var operation: string
    var diff: string
    const grantRoot: Option<string>
    const key: Key

    constructor (key: Key, grantRoot: Option<string>, path: string, operation: string, diff: string,
                 changes: seq<FileChangePart>)
      ensures this.key == key && this.grantRoot == grantRoot && Inline() == FileChangePart(path, operation, diff)
      ensures this.changes == changes
    {
      this.key, this.grantRoot, this.changes := key, grantRoot, changes;
      this.path, this.operation, this.diff := path, operation, diff;
    }

    /** The single change carried by the legacy fields. */
    function Inline(): FileChangePart
      reads this
    {
      FileChangePart(path, operation, diff)
    }
  }

  /** The changes a request is about: the cached ones, or its inline one when its key is inactive. */
  function Shown(m: Cache, key: Key, inline: FileChangePart): seq<FileChangePart> {
    if key in m then m[key].changes
    else if inline.path != "" then [inline]
    else []
  }

  predicate WellFormed(c: FileChangePart) {
    !Blank(c.path) && c.operation in ["create", "modify", "delete"]
  }

  predicate RootSound(root: Option<string>, key: Key) {
    root.Some? ==> !Blank(root.value) && key.thread != "" && key.turn != "" && key.item != ""
  }

  /** When resolveFileApproval lets the user's callback see the request. */
  predicate Resolvable(m: Cache, key: Key, root: Option<string>, inline: FileChangePart) {
    && !(key in m && m[key].invalid)
    && RootSound(root, key)
    && (if Shown(m, key, inline) == [] then root.Some?
        else forall c :: c in Shown(m, key, inline) ==> WellFormed(c))
  }

  class FileApprovalCache {
    var fileApprovals: Cache

    constructor ()
      ensures fileApprovals == map[]
    {
      fileApprovals := map[];
    }

    method Clear()
      modifies this
      ensures fileApprovals == map[]
    {
      fileApprovals := map[];
    }

    method Remember(ev: ThreadEvent)
      modifies this
      ensures fileApprovals == Remembered(old(fileApprovals), ev)
    {
      if ev.ItemStarted? {
        if ev.file.None? || ev.thread == "" || ev.turn == "" || ev.item == "" {
          return;
        }
        fileApprovals := fileApprovals[Key(ev.thread, ev.turn, ev.item) := Context(ev.file.value, false)];
      } else if ev.ItemCompleted? {
        fileApprovals := fileApprovals - {Key(ev.thread, ev.turn, ev.item)};
      } else if ev.FileChangePatchUpdated? {
        UpdatePatch(ev);
      } else {
        if !IsTurnTerminus(ev, "") {
          return;
        }
        DropTurn(ev.thread, TurnOfTerminus(ev));
      }
    }

    /** updateFileApprovalLocked */
    method UpdatePatch(ev: ThreadEvent)
      requires ev.FileChangePatchUpdated?
      modifies this
      ensures fileApprovals == Remembered(old(fileApprovals), ev)
    {
      if ev.turn == "" || ev.item == "" {
        fileApprovals := map[];
        return;
      }
      var key := Key(ev.thread, ev.turn, ev.item);
      if key !in fileApprovals {
        return;
      }
      fileApprovals := fileApprovals[key := Context(ev.patch.changes, ev.patch.invalid)];
    }

    method DropTurn(thread: string, turn: string)
      modifies this
      ensures var m := old(fileApprovals);
              fileApprovals == map k | k in m && !(k.thread == thread && k.turn == turn) :: m[k]
    {
      ghost var m := fileApprovals;
      var todo := fileApprovals.Keys;
      while todo != {}
        invariant todo <= m.Keys
        invariant fileApprovals == map k | k in m && (k in todo || !(k.thread == thread && k.turn == turn)) :: m[k]
        decreases todo
      {
        var key :| key in todo;
        if key.thread == thread && key.turn == turn {
          fileApprovals := fileApprovals - {key};
        }
        todo := todo - {key};
      }
    }

    method Resolve(request: FileChangeApprovalRequest) returns (ok: bool)
      modifies request
      ensures ok == Resolvable(fileApprovals, request.key, request.grantRoot, old(request.Inline()))
      ensures request.changes == if ok then Shown(fileApprovals, request.key, old(request.Inline())) else []
      ensures request.Inline() == if ok && |request.changes| == 1 then request.changes[0] else old(request.Inline())
    {
      request.changes := [];
      var key := request.key;
      var known := key in fileApprovals;
      var changes: seq<FileChangePart> := if known then fileApprovals[key].changes else [];
      if known && fileApprovals[key].invalid {
        return false;
      }
      if request.grantRoot.Some? &&
         (Blank(request.grantRoot.value) || key.thread == "" || key.turn == "" || key.item == "") {
        return false;
      }
      if !known && request.path != "" {
        changes := [FileChangePart(request.path, request.operation, request.diff)];
      }
      if |changes| == 0 {
        return request.grantRoot.Some?;
      }
      for i := 0 to |changes|
        invariant forall j :: 0 <= j < i ==> WellFormed(changes[j])
        invariant request.changes == [] && request.Inline() == old(request.Inline())
      {
        if Blank(changes[i].path) || changes[i].operation !in ["create", "modify", "delete"] {
          assert changes[i] in changes && !WellFormed(changes[i]);
          return false;
        }
      }
      request.changes := changes;
      if |changes| == 1 {
        request.path, request.operation, request.diff := changes[0].path, changes[0].operation, changes[0].diff;
      }
      return true;
    }
  }

  // ------------------------------------------------- the cache against its history

  /** What reaches the cache: a routed event, or a gap in the stream. */
  datatype Entry = Happened(ev: ThreadEvent) | Cleared

  function AfterEntry(m: Cache, e: Entry): Cache {
    if e.Cleared? then map[] else Remembered(m, e.ev)
  }

  function CacheAfter(h: seq<Entry>): Cache {
    if h == [] then map[] else AfterEntry(CacheAfter(h[..|h| - 1]), h[|h| - 1])
  }

  predicate Starts(e: Entry, key: Key) {
    e.Happened? && e.ev.ItemStarted? && e.ev.file.Some? && Identified(e.ev)
    && Key(e.ev.thread, e.ev.turn, e.ev.item) == key
  }

  predicate Patches(e: Entry, key: Key) {
    e.Happened? && e.ev.FileChangePatchUpdated? && e.ev.turn != "" && e.ev.item != ""
    && Key(e.ev.thread, e.ev.turn, e.ev.item) == key
  }

  /** A clearing gap, a completion of the item, the end of its turn, or a patch without identity. */
  predicate Ends(e: Entry, key: Key) {
    || e.Cleared?
    || (e.ev.ItemCompleted? && Key(e.ev.thread, e.ev.turn, e.ev.item) == key)
    || ((e.ev.TurnCompleted? || e.ev.TurnFailed?) && e.ev.thread == key.thread && e.ev.turn == key.turn)
    || (e.ev.FileChangePatchUpdated? && (e.ev.turn == "" || e.ev.item == ""))
  }

  ghost predicate Active(h: seq<Entry>, key: Key) {
    exists i :: 0 <= i < |h| && Starts(h[i], key) && forall j :: i < j < |h| ==> !Ends(h[j], key)
  }

  /** Entry i is the latest start or patch of the key. */
  ghost predicate LatestAt(h: seq<Entry>, key: Key, i: nat)
    requires i < |h|
  {
    && (Starts(h[i], key) || Patches(h[i], key))
    && forall j :: i < j < |h| ==> !Starts(h[j], key) && !Patches(h[j], key)
  }

  function ContextOf(e: Entry): Context
    requires e.Happened? && ((e.ev.ItemStarted? && e.ev.file.Some?) || e.ev.FileChangePatchUpdated?)
  {
    if e.ev.ItemStarted? then Context(e.ev.file.value, false)
    else Context(e.ev.patch.changes, e.ev.patch.invalid)
  }

  /** The cache is a function of the history: which keys are in it, and with what value. */
  lemma {:induction false} CacheMeansHistory(h: seq<Entry>, key: Key)
    ensures key in CacheAfter(h) <==> Active(h, key)
    ensures Active(h, key) ==> exists i: nat ::
              i < |h| && LatestAt(h, key, i) && CacheAfter(h)[key] == ContextOf(h[i])
    decreases |h|
  {
    if h != [] {
      var n := |h| - 1;
      var init, e := h[..n], h[n];
      CacheMeansHistory(init, key);
      ActiveStep(init, e, key);
      assert init + [e] == h;
      if Starts(e, key) || (Patches(e, key) && Active(init, key)) {
        assert Active(h, key) ==> LatestAt(h, key, n) && CacheAfter(h)[key] == ContextOf(h[n]);
      } else if Active(h, key) {
        var i: nat :| i < |init| && LatestAt(init, key, i) && CacheAfter(init)[key] == ContextOf(init[i]);
        assert LatestAt(h, key, i);
      }
    }
  }

  lemma ActiveStep(h: seq<Entry>, e: Entry, key: Key)
    ensures Active(h + [e], key) <==> Starts(e, key) || (Active(h, key) && !Ends(e, key))
  {
    var h' := h + [e];
    if Starts(e, key) {
      assert Starts(h'[|h|], key);
    }
    if Active(h, key) && !Ends(e, key) {
      var i :| 0 <= i < |h| && Starts(h[i], key) && forall j :: i < j < |h| ==> !Ends(h[j], key);
      assert Starts(h'[i], key);
    }
    if Active(h', key) && !Starts(e, key) {
      var i :| 0 <= i < |h'| && Starts(h'[i], key) && forall j :: i < j < |h'| ==> !Ends(h'[j], key);
      assert h'[|h|] == e && Starts(h[i], key);
      assert forall j :: i < j < |h| ==> h[j] == h'[j];
    }
  }

  /** A late patch never revives an inactive key, and touches no other key. */
  lemma LatePatch(h: seq<Entry>, e: Entry, key: Key)
    requires e.Happened? && e.ev.FileChangePatchUpdated? && !Active(h, key)
    ensures !Active(h + [e], key) && key !in CacheAfter(h + [e])
  {
    ActiveStep(h, e, key);
    CacheMeansHistory(h + [e], key);
  }

  /**
   Whenever resolution succeeds, what the callback sees is the latest set of an
   active key, the one inline change of an inactive key, or nothing at all for a
   root grant with full identity. A key whose latest patch was invalid is denied.
   */
  lemma ResolutionMeaning(h: seq<Entry>, key: Key, root: Option<string>, inline: FileChangePart)
    returns (latest: nat)
    ensures var m := CacheAfter(h);
            var shown := Shown(m, key, inline);
            && (Active(h, key) ==> latest < |h| && LatestAt(h, key, latest))
            && (Active(h, key) && ContextOf(h[latest]).invalid ==> !Resolvable(m, key, root, inline))
            && (Resolvable(m, key, root, inline) ==>
                  && (Active(h, key) ==> shown == ContextOf(h[latest]).changes)
                  && (!Active(h, key) ==> shown == [inline] || shown == [])
                  && (shown == [] ==> root.Some? && !Blank(root.value)
                                      && key.thread != "" && key.turn != "" && key.item != "")
                  && (forall c :: c in shown ==> !Blank(c.path))
                  && (forall c :: c in shown ==> c.operation in {"create", "modify", "delete"}))
  {
    CacheMeansHistory(h, key);
    latest := 0;
    if Active(h, key) {
      latest :| latest < |h| && LatestAt(h, key, latest) && CacheAfter(h)[key] == ContextOf(h[latest]);
    }
  }
}
