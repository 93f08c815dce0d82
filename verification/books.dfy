/** The book-winner ledger: a list of user ids kept in memory and mirrored in
    a winners file. The file is an abstract key-value store; nothing else in
    the bot calls this ledger. */
module Books {

  type UserId = int

  /** The winners file as the ledger sees it: absent, present but unreadable
      (any exception while opening or parsing), or a parsed document. */
  datatype StoreFile = Missing | Unreadable | Stored(doc: map<string, seq<UserId>>)

  const WinnersKey: string := "winners"

  /** The in-memory list and the file it was loaded from and saved to. */
  datatype BookManager = BookManager(winners: seq<UserId>, file: StoreFile)

  datatype AddResult = AddResult(added: bool, manager: BookManager)

  predicate HasWinnersList(f: StoreFile) {
    f.Stored? && WinnersKey in f.doc
  }

  /** `_load_winners`: the stored list, or the empty list when the file is
      missing, unreadable, or has no winners entry. */
  function Load(f: StoreFile): (w: seq<UserId>)
    ensures HasWinnersList(f) ==> w == f.doc[WinnersKey]
    ensures !HasWinnersList(f) ==> w == []
  {
    match f
    case Stored(doc) => if WinnersKey in doc then doc[WinnersKey] else []
    case _ => []
  }

  /** `_save_winners`: on success the file holds exactly the list under the
      winners key; a failure (reported, not raised) leaves the file as it was. */
  function Save(f: StoreFile, w: seq<UserId>, ok: bool): (f': StoreFile)
    ensures ok ==> Load(f') == w
    ensures !ok ==> f' == f
  {
    if ok then Stored(map[WinnersKey := w]) else f
  }

  /** The constructor: the ledger starts from whatever the file yields. */
  function Open(f: StoreFile): (m: BookManager)
    ensures m.winners == Load(f) && m.file == f
  {
    BookManager(Load(f), f)
  }

  /** `has_won_book`: whether the id occurs somewhere in the in-memory list
      (the file is not consulted). */
  function HasWonBook(m: BookManager, u: UserId): (b: bool)
    ensures b <==> exists i :: 0 <= i < |m.winners| && m.winners[i] == u
  {
    u in m.winners
  }

  /** `add_winner`: a new id is appended and the list saved; a known id is
      refused and nothing changes. `saveOk` says whether the write succeeds. */
  function AddWinner(m: BookManager, u: UserId, saveOk: bool): (r: AddResult)
    ensures r.added <==> !HasWonBook(m, u)
    ensures r.added ==> r.manager.winners == m.winners + [u]
    ensures !r.added ==> r.manager == m
    ensures HasWonBook(r.manager, u)
    ensures r.added && saveOk ==> Load(r.manager.file) == r.manager.winners
    ensures !saveOk ==> r.manager.file == m.file
  {
    if u !in m.winners then
      var w := m.winners + [u];
      AddResult(true, BookManager(w, Save(m.file, w, saveOk)))
    else
      AddResult(false, m)
  }

  predicate NoDuplicates(w: seq<UserId>) {
    forall i, j :: 0 <= i < j < |w| ==> w[i] != w[j]
  }

  /** After an add, exactly the earlier winners and the added user are
      winners, whether or not the save succeeded. */
  lemma WinnersAfterAdd(m: BookManager, u: UserId, saveOk: bool, v: UserId)
    ensures HasWonBook(AddWinner(m, u, saveOk).manager, v) <==> HasWonBook(m, v) || v == u
  {
  }

  /** Adding keeps a duplicate-free list duplicate-free. */
  lemma AddKeepsNoDuplicates(m: BookManager, u: UserId, saveOk: bool)
    requires NoDuplicates(m.winners)
    ensures NoDuplicates(AddWinner(m, u, saveOk).manager.winners)
  {
    var r := AddWinner(m, u, saveOk);
    if r.added {
      var w := r.manager.winners;
      forall i, j | 0 <= i < j < |w| ensures w[i] != w[j] {
        if j == |m.winners| {
          assert w[i] == m.winners[i];
        } else {
          assert w[i] == m.winners[i] && w[j] == m.winners[j];
        }
      }
    }
  }

  /** Adding the same user twice is the same as adding once. */
  lemma AddIdempotent(m: BookManager, u: UserId, saveOk: bool, saveOk2: bool)
    ensures var once := AddWinner(m, u, saveOk).manager;
      AddWinner(once, u, saveOk2) == AddResult(false, once)
  {
  }

  /** Adds a batch of winners one after another. */
  function AddAll(m: BookManager, us: seq<UserId>, saves: seq<bool>): BookManager
    requires |saves| == |us|
    decreases |us|
  {
    if us == [] then m else AddAll(AddWinner(m, us[0], saves[0]).manager, us[1..], saves[1..])
  }

  /** The list only grows: after any sequence of adds the old list is a
      prefix of the new one, and every added user is a winner. */
  lemma {:induction false} AddAllOnlyGrows(m: BookManager, us: seq<UserId>, saves: seq<bool>)
    requires |saves| == |us|
    ensures m.winners <= AddAll(m, us, saves).winners
    ensures forall i :: 0 <= i < |us| ==> HasWonBook(AddAll(m, us, saves), us[i])
    decreases |us|
  {
    if us != [] {
      var m1 := AddWinner(m, us[0], saves[0]).manager;
      AddAllOnlyGrows(m1, us[1..], saves[1..]);
      assert m.winners <= m1.winners;
      forall i | 0 <= i < |us| ensures HasWonBook(AddAll(m, us, saves), us[i]) {
        if i == 0 {
          assert us[0] in m1.winners;
        } else {
          assert us[i] == us[1..][i - 1];
        }
      }
    }
  }

  /** A ledger reopened from the file after a successful save holds the
      same list. */
  lemma ReopenAfterSave(m: BookManager, u: UserId)
    requires !HasWonBook(m, u)
    ensures var r := AddWinner(m, u, true);
      Open(r.manager.file).winners == r.manager.winners
  {
  }

  /** A failed save leaves memory ahead of the file: a reopened ledger has
      forgotten the new winner when the file did not know them. */
  lemma FailedSaveDiverges(m: BookManager, u: UserId)
    requires !HasWonBook(m, u)
    requires u !in Load(m.file)
    ensures var r := AddWinner(m, u, false);
      HasWonBook(r.manager, u) && !HasWonBook(Open(r.manager.file), u)
  {
  }
}
