/**
 * The open-dialog bookkeeping of PropertyDialogUtil: the url-to-dialog map
 * showFilePropertyDialog fills and closeFilePropertyDialog empties, the
 * close-all dialog and its refresh timer, and the totals
 * updateCloseIndicator hands to the close-all dialog.
 *
 * A FilePropertyDialog is represented by what the bookkeeping decides about
 * it: an identity, the url it was opened for and the position it was moved
 * to when it was created. Showing, raising and activating windows are
 * display effects and are not modelled.
 */
module PropertyDialog {
  import opened PropertyDialogLayout

  /**
   * A QUrl, represented by its normalised text: two urls are the same key
   * exactly when QUrl's comparison of their parsed components says so.
   */
  type Url = string

  /** kMaxPropertyDialogNumber: from this many urls on, one multi-file dialog is shown instead. */
  const MaxPropertyDialogNumber: int := 16

  /** A single-file property dialog. */
  datatype Dialog = Dialog(id: nat, url: Url, position: Point)

  /** QList::indexOf: the first index holding `u`, or -1. */
  function IndexOf(urls: seq<Url>, u: Url): (i: int)
    ensures u in urls ==> 0 <= i < |urls| && urls[i] == u && forall j :: 0 <= j < i ==> urls[j] != u
    ensures u !in urls ==> i == -1
  {
    if |urls| == 0 then -1
    else if urls[0] == u then 0
    else
      var j := IndexOf(urls[1..], u);
      if j < 0 then -1 else j + 1
  }

  /**
   * Where showFilePropertyDialog moves a newly created dialog for `u`: the
   * centre of the screen when it is the only url, otherwise the grid slot
   * of the url's first occurrence, each computed from that dialog's own
   * size: `dialogWidth(u)` and `dialogHeight(u)` stand for the size of the
   * dialog created for `u` once its extension views are added.
   */
  function Placement(screen: Screen, dialogWidth: Url -> int, dialogHeight: Url -> int, urls: seq<Url>, u: Url): Point
    requires |urls| != 1 ==> LayoutDefined(screen, dialogWidth(u))
  {
    if |urls| == 1 then GetPropertyPos(screen, dialogWidth(u), dialogHeight(u))
    else GetPerportyPos(screen, dialogWidth(u), dialogHeight(u), |urls|, IndexOf(urls, u))
  }

  /**
   * The sum of `f` over the dialogs of `m`: what updateCloseIndicator adds
   * up, in whatever order the map yields its dialogs.
   */
  ghost function Total(m: map<Url, Dialog>, f: Dialog -> int): int
    decreases |m|
  {
    if m == map[] then 0
    else
      var u :| u in m;
      assert |m - {u}| < |m| by {
        assert m.Keys - {u} < m.Keys;
      }
      f(m[u]) + Total(m - {u}, f)
  }

  /** Taking any dialog out of the map takes exactly its own value out of the total. */
  lemma {:induction false} TotalRemove(m: map<Url, Dialog>, u: Url, f: Dialog -> int)
    requires u in m
    ensures Total(m, f) == f(m[u]) + Total(m - {u}, f)
    decreases |m|
  {
    var v :| v in m && Total(m, f) == f(m[v]) + Total(m - {v}, f);
    if v != u {
      var rest := m - {u} - {v};
      assert m - {v} - {u} == rest;
      assert m.Keys - {v} < m.Keys;
      assert m.Keys - {u} < m.Keys;
      TotalRemove(m - {v}, u, f);
      TotalRemove(m - {u}, v, f);
    }
  }

  /**
   * Each dialog of `m` belongs to its url and has an identity below `next`,
   * and no two dialogs share an identity.
   */
  ghost predicate WellFormed(m: map<Url, Dialog>, next: nat)
  {
    && (forall u | u in m :: m[u].id < next && m[u].url == u)
    && (forall u, v | u in m && v in m && u != v :: m[u].id != m[v].id)
  }

  /** Adding a dialog for a new url with the next identity keeps the map well formed. */
  lemma InsertWellFormed(m: map<Url, Dialog>, next: nat, url: Url, pos: Point)
    requires WellFormed(m, next) && url !in m
    ensures WellFormed(m[url := Dialog(next, url, pos)], next + 1)
  {
    var m' := m[url := Dialog(next, url, pos)];
    forall u, v | u in m' && v in m' && u != v
      ensures m'[u].id != m'[v].id
    {
      if u != url && v != url {
        assert m'[u] == m[u] && m'[v] == m[v];
      }
    }
  }

  /**
   * `dialogs` is what the loop of showFilePropertyDialog has made of `start`
   * so far: it only adds dialogs for `urls`, keeps every dialog of `start`,
   * and gives each added dialog a fresh identity and its placement.
   */
  ghost predicate Grown(start: map<Url, Dialog>, startId: nat, dialogs: map<Url, Dialog>, urls: seq<Url>,
                        screen: Screen, dialogWidth: Url -> int, dialogHeight: Url -> int)
  {
    && (forall u | u in dialogs :: u in start || u in urls)
    && (forall u | u in start :: u in dialogs && dialogs[u] == start[u])
    && (forall u | u in dialogs && u !in start ::
          startId <= dialogs[u].id
          && (|urls| != 1 ==> LayoutDefined(screen, dialogWidth(u)))
          && dialogs[u].position == Placement(screen, dialogWidth, dialogHeight, urls, u))
  }

  /** Opening a dialog for a url of the list at its placement keeps `Grown`. */
  lemma InsertGrown(start: map<Url, Dialog>, startId: nat, dialogs: map<Url, Dialog>, next: nat, urls: seq<Url>,
                    screen: Screen, dialogWidth: Url -> int, dialogHeight: Url -> int, url: Url, pos: Point)
    requires Grown(start, startId, dialogs, urls, screen, dialogWidth, dialogHeight)
    requires startId <= next && url in urls && url !in dialogs
    requires |urls| != 1 ==> LayoutDefined(screen, dialogWidth(url))
    requires pos == Placement(screen, dialogWidth, dialogHeight, urls, url)
    ensures Grown(start, startId, dialogs[url := Dialog(next, url, pos)], urls, screen, dialogWidth, dialogHeight)
  {
  }

  /**
   * One pass of the loop of showFilePropertyDialog, for `url`: an open
   * dialog is kept, otherwise a new one with the next identity is created
   * and moved to its placement.
   */
  method OpenDialog(start: map<Url, Dialog>, startId: nat, dialogs: map<Url, Dialog>, next: nat, urls: seq<Url>, url: Url,
                    screen: Screen, dialogWidth: Url -> int, dialogHeight: Url -> int)
    returns (dialogs': map<Url, Dialog>, next': nat)
    requires url in urls && WellFormed(dialogs, next) && startId <= next
    requires 2 <= |urls| ==> forall u | u in urls && u !in start :: LayoutDefined(screen, dialogWidth(u))
    requires Grown(start, startId, dialogs, urls, screen, dialogWidth, dialogHeight)
    ensures WellFormed(dialogs', next') && startId <= next'
    ensures Grown(start, startId, dialogs', urls, screen, dialogWidth, dialogHeight)
    ensures dialogs.Keys + {url} == dialogs'.Keys
    ensures url in dialogs ==> dialogs' == dialogs && next' == next
    ensures url !in dialogs ==>
              && (|urls| != 1 ==> LayoutDefined(screen, dialogWidth(url)))
              && dialogs' == dialogs[url := Dialog(next, url, Placement(screen, dialogWidth, dialogHeight, urls, url))]
              && next' == next + 1
  {
    dialogs', next' := dialogs, next;
    if url !in dialogs {
      var index := IndexOf(urls, url);
      var pos;
      if |urls| == 1 {
        pos := GetPropertyPos(screen, dialogWidth(url), dialogHeight(url));
      } else {
        assert url !in start;
        pos := GetPerportyPos(screen, dialogWidth(url), dialogHeight(url), |urls|, index);
      }
      InsertWellFormed(dialogs, next, url, pos);
      InsertGrown(start, startId, dialogs, next, urls, screen, dialogWidth, dialogHeight, url, pos);
      dialogs' := dialogs[url := Dialog(next, url, pos)];
      next' := next + 1;
    }
  }

  /**
   * The loop of showFilePropertyDialog over fewer than sixteen urls, on the
   * url-to-dialog map `start` and the next identity `startId`: the dialog of
   * an open url is kept, any other url gets a new dialog at its placement.
   */
  method OpenDialogs(start: map<Url, Dialog>, startId: nat, urls: seq<Url>, screen: Screen, dialogWidth: Url -> int, dialogHeight: Url -> int)
    returns (dialogs: map<Url, Dialog>, next: nat)
    requires WellFormed(start, startId)
    requires 2 <= |urls| ==> forall u | u in urls && u !in start :: LayoutDefined(screen, dialogWidth(u))
    ensures WellFormed(dialogs, next) && startId <= next
    ensures dialogs.Keys == start.Keys + (set u | u in urls)
    ensures forall u | u in start :: dialogs[u] == start[u]
    ensures forall u | u in dialogs && u !in start ::
              startId <= dialogs[u].id
              && (|urls| != 1 ==> LayoutDefined(screen, dialogWidth(u)))
              && dialogs[u].position == Placement(screen, dialogWidth, dialogHeight, urls, u)
  {
    var count := |urls|;
    dialogs := start;
    next := startId;
    var i := 0;
    while i < count
      invariant 0 <= i <= count
      invariant WellFormed(dialogs, next)
      invariant startId <= next
      invariant forall j | 0 <= j < i :: urls[j] in dialogs
      invariant Grown(start, startId, dialogs, urls, screen, dialogWidth, dialogHeight)
    {
      ghost var before := dialogs;
      dialogs, next := OpenDialog(start, startId, dialogs, next, urls, urls[i], screen, dialogWidth, dialogHeight);
      forall j | 0 <= j < i + 1
        ensures urls[j] in dialogs
      {
        if j < i {
          assert urls[j] in before;
        }
      }
      i := i + 1;
    }
  }

  /** The state PropertyDialogUtil keeps about its dialogs. */
  class PropertyDialogUtil {
    /** filePropertyDialogs: the open single-file dialog of each url. */
    var filePropertyDialogs: map<Url, Dialog>
    /** The identity the next created dialog gets. */
    var nextId: nat
    /** Whether closeAllDialog is shown. */
    var closeAllShown: bool
    /** Whether closeIndicatorTimer is running. */
    var indicatorRunning: bool
    /** The url lists of the multi-file dialogs shown so far. */
    var multiFileDialogs: seq<seq<Url>>

    /** Each open dialog belongs to its url, and no identity is handed out twice. */
    ghost predicate Valid()
      reads this
    {
      WellFormed(filePropertyDialogs, nextId)
    }

    constructor()
      ensures Valid()
      ensures filePropertyDialogs == map[] && nextId == 0
      ensures !closeAllShown && !indicatorRunning && multiFileDialogs == []
    {
      filePropertyDialogs := map[];
      nextId := 0;
      closeAllShown := false;
      indicatorRunning := false;
      multiFileDialogs := [];
    }

    /**
     * PropertyDialogUtil::showFilePropertyDialog. Fewer than sixteen urls:
     * every url ends up with a dialog, an open one being reused and a new
     * one created and placed; two or more urls also show the close-all
     * dialog and start its timer. Sixteen or more: one multi-file dialog for
     * all of them, and the map is left alone.
     */
    method ShowFilePropertyDialog(urls: seq<Url>, screen: Screen, dialogWidth: Url -> int, dialogHeight: Url -> int)
      modifies this
      requires Valid()
      requires 2 <= |urls| < MaxPropertyDialogNumber ==>
                 forall u | u in urls && u !in filePropertyDialogs :: LayoutDefined(screen, dialogWidth(u))
      ensures Valid() && old(nextId) <= nextId
      ensures |urls| >= MaxPropertyDialogNumber ==>
        && filePropertyDialogs == old(filePropertyDialogs) && nextId == old(nextId)
        && closeAllShown == old(closeAllShown) && indicatorRunning == old(indicatorRunning)
        && multiFileDialogs == old(multiFileDialogs) + [urls]
      ensures |urls| < MaxPropertyDialogNumber ==>
        && filePropertyDialogs.Keys == old(filePropertyDialogs).Keys + (set u | u in urls)
        && (forall u | u in old(filePropertyDialogs) :: filePropertyDialogs[u] == old(filePropertyDialogs)[u])
        && (forall u | u in filePropertyDialogs && u !in old(filePropertyDialogs) ::
              old(nextId) <= filePropertyDialogs[u].id
              && (|urls| != 1 ==> LayoutDefined(screen, dialogWidth(u)))
              && filePropertyDialogs[u].position == Placement(screen, dialogWidth, dialogHeight, urls, u))
        && closeAllShown == (old(closeAllShown) || |urls| >= 2)
        && indicatorRunning == (old(indicatorRunning) || |urls| >= 2)
        && multiFileDialogs == old(multiFileDialogs)
    {
      var count := |urls|;
      if count < MaxPropertyDialogNumber {
        filePropertyDialogs, nextId := OpenDialogs(filePropertyDialogs, nextId, urls, screen, dialogWidth, dialogHeight);
        if count >= 2 {
          closeAllShown := true;
          indicatorRunning := true;
        }
      } else {
        multiFileDialogs := multiFileDialogs + [urls];
      }
    }

    /**
     * PropertyDialogUtil::closeFilePropertyDialog: forgets the dialog of
     * `url`, if any, and hides the close-all dialog once no dialog is left.
     */
    method CloseFilePropertyDialog(url: Url)
      modifies this
      requires Valid()
      ensures Valid()
      ensures filePropertyDialogs == old(filePropertyDialogs) - {url}
      ensures closeAllShown == (old(closeAllShown) && filePropertyDialogs != map[])
      ensures nextId == old(nextId) && indicatorRunning == old(indicatorRunning)
      ensures multiFileDialogs == old(multiFileDialogs)
    {
      if url in filePropertyDialogs {
        filePropertyDialogs := filePropertyDialogs - {url};
      }
      if filePropertyDialogs == map[] {
        closeAllShown := false;
      }
    }

    /**
     * PropertyDialogUtil::closeAllFilePropertyDialog: closes every open
     * dialog, stops the refresh timer and hides the close-all dialog.
     * Closing a dialog emits its `closed` signal with its url, which the
     * connection made when the dialog was created delivers to
     * closeFilePropertyDialog at once; each dialog is stored under its own
     * url, so closing it is closeFilePropertyDialog of its key.
     */
    method CloseAllFilePropertyDialog()
      modifies this
      requires Valid()
      ensures Valid()
      ensures filePropertyDialogs == map[] && !closeAllShown && !indicatorRunning
      ensures nextId == old(nextId) && multiFileDialogs == old(multiFileDialogs)
    {
      var dialogs := filePropertyDialogs.Keys;
      while dialogs != {}
        invariant Valid() && filePropertyDialogs.Keys == dialogs
        invariant nextId == old(nextId) && multiFileDialogs == old(multiFileDialogs)
        decreases |dialogs|
      {
        var u :| u in dialogs;
        CloseFilePropertyDialog(u);
        dialogs := dialogs - {u};
      }
      assert filePropertyDialogs == map[];
      indicatorRunning := false;
      closeAllShown := false;
    }

    /**
     * PropertyDialogUtil::updateCloseIndicator: the total file size and file
     * count of the open dialogs, the message it hands to the close-all
     * dialog. `fileSize` and `fileCount` stand for the dialogs' own
     * getFileSize and getFileCount.
     */
    method UpdateCloseIndicator(fileSize: Dialog -> int, fileCount: Dialog -> int) returns (size: int, count: int)
      ensures size == Total(filePropertyDialogs, fileSize)
      ensures count == Total(filePropertyDialogs, fileCount)
    {
      size := 0;
      count := 0;
      var rest := filePropertyDialogs;
      while rest != map[]
        invariant size + Total(rest, fileSize) == Total(filePropertyDialogs, fileSize)
        invariant count + Total(rest, fileCount) == Total(filePropertyDialogs, fileCount)
        decreases |rest|
      {
        var u :| u in rest;
        TotalRemove(rest, u, fileSize);
        TotalRemove(rest, u, fileCount);
        size := size + fileSize(rest[u]);
        count := count + fileCount(rest[u]);
        assert rest.Keys - {u} < rest.Keys;
        rest := rest - {u};
      }
    }
  }

  /** Closing an open dialog takes exactly its own size and file count out of the indicator's totals. */
  lemma CloseReducesTotals(m: map<Url, Dialog>, u: Url, fileSize: Dialog -> int, fileCount: Dialog -> int)
    requires u in m
    ensures Total(m - {u}, fileSize) == Total(m, fileSize) - fileSize(m[u])
    ensures Total(m - {u}, fileCount) == Total(m, fileCount) - fileCount(m[u])
  {
    TotalRemove(m, u, fileSize);
    TotalRemove(m, u, fileCount);
  }
}
