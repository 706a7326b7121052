/** `download_ad_performance` and `_first_download_date_of_ad_account` of
    facebook_downloader/downloader.py: for each ad account, walk the days
    from yesterday (in the account's time zone) down to the first download
    date, and download a day when its database file is missing or the day
    lies within the redownload window of yesterday.

    Days are consecutive integers (a day number), so "one day earlier" is
    `- 1` and `(last_date - current_date).days` is a subtraction. Reading
    the clock and parsing date strings happen outside the model: each
    account's creation day arrives already parsed, and `yesterday` gives the
    day that is yesterday in the account's time zone. */
module AdPerformance {
  import opened Wrappers

  type Day = int

  /** The database file `YYYY/MM/DD/facebook/ad-performance-act_<id>.sqlite3`
      of one account and day. */
  datatype DbFile = DbFile(accountId: string, day: Day)

  /** An ad account: its id, its name and, when the API reported
      `created_time`, the day it was created. */
  datatype AdAccount = AdAccount(accountId: string, name: string, createdDate: Option<Day>)

  /** `_first_download_date_of_ad_account`: the later of the configured first
      date and the account's creation day, or the configured first date
      when the creation time is absent. */
  function FirstDownloadDate(configFirstDate: Day, createdDate: Option<Day>): (r: Day)
    ensures r >= configFirstDate
    ensures createdDate.None? ==> r == configFirstDate
    ensures createdDate.Some? ==> r >= createdDate.value && (r == configFirstDate || r == createdDate.value)
  {
    match createdDate
    case None => configFirstDate
    case Some(created) => if configFirstDate >= created then configFirstDate else created
  }

  /** The days from `lastDate` down to `firstDate`. */
  function DaysDescending(lastDate: Day, firstDate: Day): seq<Day>
    decreases lastDate - firstDate
  {
    if lastDate < firstDate then [] else [lastDate] + DaysDescending(lastDate - 1, firstDate)
  }

  /** The walk visits `lastDate - i` at step `i`: every day from `lastDate`
      down to `firstDate`, none when `firstDate > lastDate`. */
  lemma {:induction false} DaysDescendingAt(lastDate: Day, firstDate: Day)
    ensures |DaysDescending(lastDate, firstDate)| == if lastDate < firstDate then 0 else lastDate - firstDate + 1
    ensures forall i :: 0 <= i < |DaysDescending(lastDate, firstDate)| ==> DaysDescending(lastDate, firstDate)[i] == lastDate - i
    decreases lastDate - firstDate
  {
    if lastDate >= firstDate {
      DaysDescendingAt(lastDate - 1, firstDate);
    }
  }

  /** Each day of the range is visited exactly once, in strictly descending
      order, and no other day is visited. */
  lemma DaysDescendingVisitsEachOnce(lastDate: Day, firstDate: Day)
    ensures forall d :: d in DaysDescending(lastDate, firstDate) <==> firstDate <= d <= lastDate
    ensures StrictlyDescending(DaysDescending(lastDate, firstDate))
  {
    var days := DaysDescending(lastDate, firstDate);
    DaysDescendingAt(lastDate, firstDate);
    forall d | firstDate <= d <= lastDate ensures d in days {
      assert days[lastDate - d] == d;
    }
  }

  predicate StrictlyDescending(days: seq<Day>) {
    forall i, j :: 0 <= i < j < |days| ==> days[i] > days[j]
  }

  /** The download condition for one visited day. */
  predicate NeedsDownload(accountId: string, day: Day, lastDate: Day, redownloadWindow: int, files: set<DbFile>) {
    DbFile(accountId, day) !in files || lastDate - day <= redownloadWindow
  }

  /** The visited days that are downloaded, in visiting order. */
  function Selected(days: seq<Day>, accountId: string, lastDate: Day, redownloadWindow: int, files: set<DbFile>): (r: seq<Day>)
    ensures forall d :: d in r <==> d in days && NeedsDownload(accountId, d, lastDate, redownloadWindow, files)
  {
    if days == [] then []
    else
      var init := Selected(days[..|days| - 1], accountId, lastDate, redownloadWindow, files);
      var d := days[|days| - 1];
      assert days == days[..|days| - 1] + [d];
      if NeedsDownload(accountId, d, lastDate, redownloadWindow, files) then init + [d] else init
  }

  /** Selection keeps the walk's order: from a strictly descending walk it
      picks a strictly descending sequence. */
  lemma {:induction false} SelectedDescending(days: seq<Day>, accountId: string, lastDate: Day, redownloadWindow: int, files: set<DbFile>)
    requires StrictlyDescending(days)
    ensures StrictlyDescending(Selected(days, accountId, lastDate, redownloadWindow, files))
  {
    if days != [] {
      var n := |days| - 1;
      var init := days[..n];
      SelectedDescending(init, accountId, lastDate, redownloadWindow, files);
      var s := Selected(init, accountId, lastDate, redownloadWindow, files);
      forall k | 0 <= k < |s| ensures s[k] > days[n] {
        assert s[k] in s;
        var p :| 0 <= p < |init| && init[p] == s[k];
        assert days[p] == init[p];
      }
      var r := Selected(days, accountId, lastDate, redownloadWindow, files);
      if NeedsDownload(accountId, days[n], lastDate, redownloadWindow, files) {
        assert r == s + [days[n]];
        forall i, j | 0 <= i < j < |r| ensures r[i] > r[j] {
          assert r[i] == s[i];
          if j == |s| {
            assert r[j] == days[n];
          } else {
            assert r[j] == s[j];
          }
        }
      } else {
        assert r == s;
      }
    }
  }

  /** The inner `while current_date >= first_date` loop for one account:
      the days it visits (each one gets its directory created) and the days
      whose performance it downloads. A downloaded day's file is created
      after its check, and no day is visited twice, so checking every day
      against the files present before the walk is the same. */
  method DownloadAccountDays(accountId: string, lastDate: Day, firstDate: Day, redownloadWindow: int, files: set<DbFile>)
    returns (visited: seq<Day>, downloaded: seq<Day>)
    ensures visited == DaysDescending(lastDate, firstDate)
    ensures downloaded == Selected(visited, accountId, lastDate, redownloadWindow, files)
  {
    var currentDate := lastDate;
    visited, downloaded := [], [];
    while currentDate >= firstDate
      invariant visited + DaysDescending(currentDate, firstDate) == DaysDescending(lastDate, firstDate)
      invariant downloaded == Selected(visited, accountId, lastDate, redownloadWindow, files)
      decreases currentDate - firstDate
    {
      ghost var next := visited + [currentDate];
      assert next[..|visited|] == visited;
      assert DaysDescending(currentDate, firstDate) == [currentDate] + DaysDescending(currentDate - 1, firstDate);
      assert visited + ([currentDate] + DaysDescending(currentDate - 1, firstDate))
          == next + DaysDescending(currentDate - 1, firstDate);
      if DbFile(accountId, currentDate) !in files || lastDate - currentDate <= redownloadWindow {
        downloaded := downloaded + [currentDate];
      }
      assert downloaded == Selected(next, accountId, lastDate, redownloadWindow, files);
      visited := visited + [currentDate];
      currentDate := currentDate - 1;
    }
    assert visited + [] == visited;
  }

  /** A day of the walk is downloaded if and only if its file is missing or
      it lies within the window; every day of the walk inside the window is
      therefore downloaded again, and the downloads come newest first. */
  lemma DownloadedDaysSpec(accountId: string, lastDate: Day, firstDate: Day, redownloadWindow: int, files: set<DbFile>)
    ensures var r := Selected(DaysDescending(lastDate, firstDate), accountId, lastDate, redownloadWindow, files);
      && (forall d :: d in r <==>
            firstDate <= d <= lastDate && (DbFile(accountId, d) !in files || lastDate - d <= redownloadWindow))
      && (forall d :: firstDate <= d <= lastDate && lastDate - d <= redownloadWindow ==> d in r)
      && StrictlyDescending(r)
  {
    DaysDescendingVisitsEachOnce(lastDate, firstDate);
    SelectedDescending(DaysDescending(lastDate, firstDate), accountId, lastDate, redownloadWindow, files);
  }

  function FilesOf(accountId: string, days: seq<Day>): (r: seq<DbFile>)
    ensures |r| == |days| && forall i :: 0 <= i < |days| ==> r[i] == DbFile(accountId, days[i])
  {
    seq(|days|, i requires 0 <= i < |days| => DbFile(accountId, days[i]))
  }

  /** The files one account's walk downloads. */
  function AccountDownloads(account: AdAccount, lastDate: Day, configFirstDate: Day, redownloadWindow: int, files: set<DbFile>): seq<DbFile> {
    var firstDate := FirstDownloadDate(configFirstDate, account.createdDate);
    FilesOf(account.accountId, Selected(DaysDescending(lastDate, firstDate), account.accountId, lastDate, redownloadWindow, files))
  }

  /** The files of a sequence of downloads. */
  function FileSet(downloads: seq<DbFile>): (r: set<DbFile>)
    ensures forall f :: f in r <==> f in downloads
  {
    set f | f in downloads
  }

  lemma FileSetAppend(a: seq<DbFile>, b: seq<DbFile>)
    ensures FileSet(a + b) == FileSet(a) + FileSet(b)
  {
  }

  /** The files downloaded for `accounts` in order, each walk seeing the
      files the walks before it created. */
  function Plan(accounts: seq<AdAccount>, yesterday: AdAccount -> Day, configFirstDate: Day, redownloadWindow: int, files: set<DbFile>): seq<DbFile> {
    if accounts == [] then []
    else
      var ds := AccountDownloads(accounts[0], yesterday(accounts[0]), configFirstDate, redownloadWindow, files);
      ds + Plan(accounts[1..], yesterday, configFirstDate, redownloadWindow, files + FileSet(ds))
  }

  lemma PlanStep(accounts: seq<AdAccount>, n: nat, yesterday: AdAccount -> Day, configFirstDate: Day,
                 redownloadWindow: int, files: set<DbFile>)
    requires n < |accounts|
    ensures var ds := AccountDownloads(accounts[n], yesterday(accounts[n]), configFirstDate, redownloadWindow, files);
      Plan(accounts[n..], yesterday, configFirstDate, redownloadWindow, files)
        == ds + Plan(accounts[n + 1..], yesterday, configFirstDate, redownloadWindow, files + FileSet(ds))
  {
    assert accounts[n..][0] == accounts[n] && accounts[n..][1..] == accounts[n + 1..];
  }

  /** `download_ad_performance`: the loop over the ad accounts. Downloading
      a day creates its database file, so `files` grows by every download. */
  method DownloadAdPerformance(accounts: seq<AdAccount>, yesterday: AdAccount -> Day, configFirstDate: Day,
                               redownloadWindow: int, existing: set<DbFile>)
    returns (downloads: seq<DbFile>, files: set<DbFile>)
    ensures downloads == Plan(accounts, yesterday, configFirstDate, redownloadWindow, existing)
    ensures files == existing + FileSet(downloads)
  {
    downloads, files := [], existing;
    for n := 0 to |accounts|
      invariant downloads + Plan(accounts[n..], yesterday, configFirstDate, redownloadWindow, files)
             == Plan(accounts, yesterday, configFirstDate, redownloadWindow, existing)
      invariant files == existing + FileSet(downloads)
    {
      var account := accounts[n];
      var lastDate := yesterday(account);
      var firstDate := FirstDownloadDate(configFirstDate, account.createdDate);
      var visited, days := DownloadAccountDays(account.accountId, lastDate, firstDate, redownloadWindow, files);
      var created := FilesOf(account.accountId, days);
      PlanStep(accounts, n, yesterday, configFirstDate, redownloadWindow, files);
      ghost var rest := Plan(accounts[n + 1..], yesterday, configFirstDate, redownloadWindow, files + FileSet(created));
      assert downloads + (created + rest) == (downloads + created) + rest;
      FileSetAppend(downloads, created);
      downloads := downloads + created;
      files := files + FileSet(created);
    }
    assert downloads + [] == downloads;
  }

  /** With distinct account ids, a file is downloaded if and only if its
      account is one of the accounts, its day lies between that account's
      first download date and yesterday, and the file was missing before
      the run or the day lies within the redownload window. */
  lemma {:induction false} PlanSpec(accounts: seq<AdAccount>, yesterday: AdAccount -> Day, configFirstDate: Day,
                                    redownloadWindow: int, files: set<DbFile>, f: DbFile)
    requires forall i, j :: 0 <= i < j < |accounts| ==> accounts[i].accountId != accounts[j].accountId
    ensures f in Plan(accounts, yesterday, configFirstDate, redownloadWindow, files) <==>
      exists i :: 0 <= i < |accounts| && InPlanOf(accounts[i], yesterday, configFirstDate, redownloadWindow, files, f)
  {
    if accounts != [] {
      var a := accounts[0];
      var ds := AccountDownloads(a, yesterday(a), configFirstDate, redownloadWindow, files);
      var files' := files + FileSet(ds);
      var rest := accounts[1..];
      forall i, j | 0 <= i < j < |rest| ensures rest[i].accountId != rest[j].accountId {
        assert rest[i] == accounts[i + 1] && rest[j] == accounts[j + 1];
      }
      PlanSpec(rest, yesterday, configFirstDate, redownloadWindow, files', f);
      AccountDownloadsSpec(a, yesterday(a), configFirstDate, redownloadWindow, files, f);
      forall i | 0 <= i < |rest|
        ensures InPlanOf(rest[i], yesterday, configFirstDate, redownloadWindow, files', f)
            <==> InPlanOf(rest[i], yesterday, configFirstDate, redownloadWindow, files, f)
      {
        assert rest[i] == accounts[i + 1];
        if rest[i].accountId == f.accountId {
          forall g | g in ds ensures g.accountId == a.accountId {
            AccountDownloadsSpec(a, yesterday(a), configFirstDate, redownloadWindow, files, g);
          }
          assert f !in ds;
        }
      }
      if exists i :: 0 <= i < |accounts| && InPlanOf(accounts[i], yesterday, configFirstDate, redownloadWindow, files, f) {
        var i :| 0 <= i < |accounts| && InPlanOf(accounts[i], yesterday, configFirstDate, redownloadWindow, files, f);
        if i > 0 {
          assert InPlanOf(rest[i - 1], yesterday, configFirstDate, redownloadWindow, files, f);
        }
      }
      if exists i :: 0 <= i < |rest| && InPlanOf(rest[i], yesterday, configFirstDate, redownloadWindow, files', f) {
        var i :| 0 <= i < |rest| && InPlanOf(rest[i], yesterday, configFirstDate, redownloadWindow, files', f);
        assert InPlanOf(accounts[i + 1], yesterday, configFirstDate, redownloadWindow, files, f);
      }
    }
  }

  /** File `f` is one that the walk of `account` downloads. */
  predicate InPlanOf(account: AdAccount, yesterday: AdAccount -> Day, configFirstDate: Day,
                     redownloadWindow: int, files: set<DbFile>, f: DbFile) {
    && f.accountId == account.accountId
    && FirstDownloadDate(configFirstDate, account.createdDate) <= f.day <= yesterday(account)
    && (f !in files || yesterday(account) - f.day <= redownloadWindow)
  }

  lemma AccountDownloadsSpec(account: AdAccount, lastDate: Day, configFirstDate: Day, redownloadWindow: int,
                             files: set<DbFile>, f: DbFile)
    ensures f in AccountDownloads(account, lastDate, configFirstDate, redownloadWindow, files) <==>
      && f.accountId == account.accountId
      && FirstDownloadDate(configFirstDate, account.createdDate) <= f.day <= lastDate
      && (f !in files || lastDate - f.day <= redownloadWindow)
  {
    var firstDate := FirstDownloadDate(configFirstDate, account.createdDate);
    var days := Selected(DaysDescending(lastDate, firstDate), account.accountId, lastDate, redownloadWindow, files);
    DownloadedDaysSpec(account.accountId, lastDate, firstDate, redownloadWindow, files);
    if f in AccountDownloads(account, lastDate, configFirstDate, redownloadWindow, files) {
      var i :| 0 <= i < |days| && FilesOf(account.accountId, days)[i] == f;
      assert days[i] in days;
    }
    if f.accountId == account.accountId && f.day in days {
      var i :| 0 <= i < |days| && days[i] == f.day;
      assert FilesOf(account.accountId, days)[i] == f;
    }
  }
}
