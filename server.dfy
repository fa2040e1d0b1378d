/**
 * The request handling of src/index.ts: its own copies of the date and time
 * formatters (fixed "-" separator), the `/backup/:id` handler that resolves a
 * backup route, renders the filename template and hands the upload to the
 * selected storage backend, and the start-up that builds the registry.
 */
module Server {
  import opened Wrappers
  import opened Text
  import Formatters
  import opened StorageSetup

  type DateTime = Formatters.DateTime

  /**
   * One backup route: filename template and target backend name. `None` is a
   * route whose `filename` is missing or not a string, so that calling
   * `.replace` on it throws a `TypeError`.
   */
  datatype BackupConfig = BackupConfig(filename: Option<string>, storage: string)

  /** The parts of the configuration file the handler uses; the listener settings are not modelled. */
  datatype Config = Config(storage: seq<Entry>, backups: map<string, BackupConfig>)

  const DatePlaceholder: string := "{{date}}"
  const TimePlaceholder: string := "{{time}}"
  const DoneBody: string := "Done"
  const NotFoundStatus: int := 404

  /** The local `formatDate`: `${year}-${month}-${day}`; the same as the shared formatter with its default separator. */
  function FormatDate(date: DateTime): (r: string)
    ensures r == Formatters.FormatDate(date)
  {
    var day := Formatters.Field2(date.day);
    var month := Formatters.Field2(date.monthIndex + 1);
    var year := NatToDecimal(date.year);
    year + "-" + month + "-" + day
  }

  /** The local `formatTime`: `${hours}-${minutes}-${seconds}`; the same as the shared formatter with its default separator. */
  function FormatTime(date: DateTime): (r: string)
    ensures r == Formatters.FormatTime(date)
  {
    var hours := Formatters.Field2(date.hours);
    var minutes := Formatters.Field2(date.minutes);
    var seconds := Formatters.Field2(date.seconds);
    hours + "-" + minutes + "-" + seconds
  }

  /**
   * The filename of a request at instant `now`: the first "{{date}}" of the
   * template replaced by the date, then the first "{{time}}" of the result
   * replaced by the time, both rendered from the same `now`.
   */
  function RenderFilename(template: string, now: DateTime): (r: string)
    ensures !Contains(template, DatePlaceholder) && !Contains(template, TimePlaceholder) ==> r == template
  {
    ReplaceFirst(ReplaceFirst(template, DatePlaceholder, FormatDate(now)), TimePlaceholder, FormatTime(now))
  }

  /** The rendered date and time hold only digits and "-", so they cannot start a placeholder. */
  lemma RenderedFieldsHaveNoBrace(now: DateTime)
    ensures '{' !in FormatDate(now) && '{' !in FormatTime(now)
  {
    var year, month, day := NatToDecimal(now.year), Formatters.Field2(now.monthIndex + 1), Formatters.Field2(now.day);
    NoBrace(year);
    NoBrace(month);
    NoBrace(day);
    assert FormatDate(now) == year + "-" + month + "-" + day;
    var hours, minutes, seconds := Formatters.Field2(now.hours), Formatters.Field2(now.minutes), Formatters.Field2(now.seconds);
    NoBrace(hours);
    NoBrace(minutes);
    NoBrace(seconds);
    assert FormatTime(now) == hours + "-" + minutes + "-" + seconds;
  }

  lemma NoBrace(s: string)
    requires AllDigits(s)
    ensures '{' !in s
  {
  }

  /**
   * A template with one "{{date}}" followed later by one "{{time}}", and no
   * other '{' before them, renders to the date and the time in their places
   * with the text around them unchanged.
   */
  lemma RenderInOrder(before: string, between: string, after: string, now: DateTime)
    requires '{' !in before && '{' !in between
    ensures RenderFilename(before + DatePlaceholder + between + TimePlaceholder + after, now)
         == before + FormatDate(now) + between + FormatTime(now) + after
  {
    var rest := between + TimePlaceholder + after;
    assert before + DatePlaceholder + between + TimePlaceholder + after == before + DatePlaceholder + rest;
    ReplaceFirstAfter(before, DatePlaceholder, rest, FormatDate(now));
    var lead := before + FormatDate(now) + between;
    RenderedFieldsHaveNoBrace(now);
    assert before + FormatDate(now) + rest == lead + TimePlaceholder + after;
    ReplaceFirstAfter(lead, TimePlaceholder, after, FormatTime(now));
  }

  /** `render("backup-{{date}}-{{time}}.tar", 2024-03-05T07:08:09)` with the default separator. */
  lemma RenderExample(template: string, now: DateTime)
    requires template == "backup-{{date}}-{{time}}.tar"
    requires now.year == 2024 && now.monthIndex == 2 && now.day == 5
    requires now.hours == 7 && now.minutes == 8 && now.seconds == 9
    ensures RenderFilename(template, now) == "backup-2024-03-05-07-08-09.tar"
  {
    assert "backup-" + DatePlaceholder + "-" + TimePlaceholder + ".tar" == template;
    RenderInOrder("backup-", "-", ".tar", now);
    ExampleFields(now);
    ConcatExample(FormatDate(now), FormatTime(now));
  }

  lemma ConcatExample(date: string, time: string)
    requires date == "2024-03-05" && time == "07-08-09"
    ensures "backup-" + date + "-" + time + ".tar" == "backup-2024-03-05-07-08-09.tar"
  {
  }

  lemma ExampleFields(now: DateTime)
    requires now.year == 2024 && now.monthIndex == 2 && now.day == 5
    requires now.hours == 7 && now.minutes == 8 && now.seconds == 9
    ensures FormatDate(now) == "2024-03-05" && FormatTime(now) == "07-08-09"
  {
  }

  /** The storage call a request makes: backend name, the backend, the filename and the declared length. */
  datatype StorageCall = StorageCall(backendName: string, backend: StorageBackend, fileName: string, length: Option<nat>)

  /** What the handler decides to do for a request, before the backend runs. */
  datatype Decision =
    | RouteNotFound
    | FilenameNotString
    | BackendMissing(backendName: string, fileName: string)
    | Invoke(call: StorageCall)

  /**
   * Route resolution: an unknown id is not found; a known id without a
   * string template fails when the template is rendered; a known id whose
   * backend is not registered cannot be served; otherwise the registered
   * backend is called with the rendered filename and the request's declared
   * length.
   */
  function Resolve(backups: map<string, BackupConfig>, storage: map<string, StorageBackend>,
                   id: string, now: DateTime, length: Option<nat>): (d: Decision)
    ensures d.RouteNotFound? <==> id !in backups
    ensures d.FilenameNotString? <==> id in backups && backups[id].filename.None?
    ensures d.BackendMissing? <==>
      id in backups && backups[id].filename.Some? && backups[id].storage !in storage
    ensures d.BackendMissing? ==>
      d.backendName == backups[id].storage && d.fileName == RenderFilename(backups[id].filename.value, now)
    ensures d.Invoke? ==>
      && id in backups && backups[id].filename.Some? && d.call.backendName == backups[id].storage
      && d.call.backendName in storage && d.call.backend == storage[d.call.backendName]
      && d.call.fileName == RenderFilename(backups[id].filename.value, now)
      && d.call.length == length
  {
    if id !in backups then RouteNotFound
    else
      var info := backups[id];
      if info.filename.None? then FilenameNotString
      else
        var fileName := RenderFilename(info.filename.value, now);
        if info.storage !in storage then BackendMissing(info.storage, fileName)
        else Invoke(StorageCall(info.storage, storage[info.storage], fileName, length))
  }

  /** Why the handler's promise rejects. */
  datatype HandlerError =
    | FilenameTypeError                    // `info.filename.replace` is not a function
    | NoSuchBackend(backendName: string)   // `storage[info.storage]` is undefined
    | ReceiveRejected(reason: string)      // the backend's promise rejected

  /** How the handler's own promise settles. */
  datatype HandlerResult = Completed | ReturnedNotFound | Threw(error: HandlerError)

  /**
   * Koa's request context as the handler uses it: the declared request length
   * it reads (`ctx.request.length`), the status and body it assigns, and the
   * storage calls made on behalf of the request.
   */
  class Context {
    const requestLength: Option<nat>
    var status: int
    var body: Option<string>
    var calls: seq<StorageCall>

    constructor (requestLength: Option<nat>, status: int)
      ensures this.requestLength == requestLength && this.status == status
      ensures body == None && calls == []
    {
      this.requestLength := requestLength;
      this.status := status;
      body := None;
      calls := [];
    }
  }

  /** The running service: the registry and the routes, both fixed when the configuration is loaded. */
  class App {
    const storage: map<string, StorageBackend>
    const backups: map<string, BackupConfig>

    constructor (config: Config)
      ensures storage == Setup(config.storage) && backups == config.backups
    {
      storage := Setup(config.storage);
      backups := config.backups;
    }

    /**
     * The `/backup/:id` handler. `now` is the single clock reading of the
     * request and `settled` how the backend's `receiveFileStream` promise
     * settles if it is called.
     */
    method HandleBackup(ctx: Context, id: string, now: DateTime, settled: Outcome<string>) returns (result: HandlerResult)
      modifies ctx
      ensures var d := Resolve(backups, storage, id, now, ctx.requestLength);
        && (d.RouteNotFound? ==>
              && ctx.status == NotFoundStatus && ctx.body == old(ctx.body) && ctx.calls == old(ctx.calls)
              && result == ReturnedNotFound)
        && (d.FilenameNotString? ==>
              && ctx.status == old(ctx.status) && ctx.body == old(ctx.body) && ctx.calls == old(ctx.calls)
              && result == Threw(FilenameTypeError))
        && (d.BackendMissing? ==>
              && ctx.status == old(ctx.status) && ctx.body == old(ctx.body) && ctx.calls == old(ctx.calls)
              && result == Threw(NoSuchBackend(d.backendName)))
        && (d.Invoke? ==>
              && ctx.status == old(ctx.status) && ctx.calls == old(ctx.calls) + [d.call]
              && ctx.body == (if settled.Pass? then Some(DoneBody) else old(ctx.body))
              && result == (if settled.Pass? then Completed else Threw(ReceiveRejected(settled.error))))
    {
      if id !in backups {
        ctx.status := NotFoundStatus;
        return ReturnedNotFound;
      }
      var info := backups[id];
      if info.filename.None? {
        return Threw(FilenameTypeError);
      }
      var filename := RenderFilename(info.filename.value, now);
      if info.storage !in storage {
        return Threw(NoSuchBackend(info.storage));
      }
      ctx.calls := ctx.calls + [StorageCall(info.storage, storage[info.storage], filename, ctx.requestLength)];
      if settled.Fail? {
        return Threw(ReceiveRejected(settled.error));
      }
      ctx.body := Some(DoneBody);
      return Completed;
    }
  }
}
