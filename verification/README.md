# codis-fe routing table, modelled in Dafny

`codis-fe` is the Codis web front end. It forwards each HTTP request to one of
several Codis dashboards, and it picks the dashboard by the name in the
request's `forward` parameter. The name → dashboard-host table comes from a
dashboard-list file. A background loop polls that file:

- `ConfigLoader.Reload` compares the file's modification time with the time of
  the last successful load. Only when the two differ does it read the file and
  decode it as a JSON array of `{name, dashboard}` records.
- `ConfigLoader.Load` folds that array into a name → host map. A later record
  with the same name overwrites an earlier one.
- `ReverseProxy.Update` replaces the whole routing table with one route per
  entry whose name and host are both non-empty.
- `ReverseProxy.GetProxy` and `ReverseProxy.Names` answer lookups and list the
  routed names.

The model is functional:

- The stat outcome is an input: `StatFailed | Stat(modTime)`.
- The read-and-decode outcome is an input: `ReadFailed | DecodeFailed | Decoded(records)`.
- Modification times are abstract instants (`int`). Go's `Time.Equal` becomes `==`.
- A forwarding target is represented by its host.
- The mutex-protected table is one value that `Update` replaces as a whole.

Files:

- `wrappers.dfy`: `Option`.
- `loader.dfy`: module `Loader`.
- `proxy.dfy`: module `Proxy`.
- `reload_loop.dfy`: module `ReloadLoop`. It holds the loop body, with state `(loader, router)`.

`Load` keeps records with an empty name or an empty dashboard
(cmd/fe/main.go:200-203); only `Update` drops them (cmd/fe/main.go:217-219).
The model does the same: `Loader.Collect` keeps every name, and `Proxy.Update`
filters. Because the filter runs after the last-wins fold, a later record with
an empty dashboard removes the route an earlier record with the same name
would have given (`ReloadLoop.EmptyLaterRecordRemovesRoute`).

## Model

| member | source | states |
|---|---|---|
| Loader.Collect | cmd/fe/main.go:200-204 | the map's keys are exactly the names in the record list, and each name maps to the dashboard of the last record carrying it |
| Loader.CollectConcat | cmd/fe/main.go:200-204 | loading `a + b` gives the map of `a` overridden by the map of `b`: later records win |
| Loader.DuplicateNameKeepsLast | cmd/fe/main.go:201-203 | of two records named "a", the later one's host is the one kept |
| Loader.Load | cmd/fe/main.go:188-205 | a read failure and a decode failure are returned as errors; a decoded list always yields a map (possibly empty) with the last-wins contents |
| Loader.Reload | cmd/fe/main.go:175-186 | a stat failure is an error and the loader is unchanged; an equal modification time returns "unchanged" with no error and no map; otherwise the result is exactly Load's error or Load's map; the remembered time becomes the observed one exactly when a map is returned |
| Loader.ReloadAdvancesOnlyOnSuccess | cmd/fe/main.go:176-184 | the loader state changes only on a successful load, and then to the observed modification time |
| Loader.ReloadTwiceIsUnchanged | cmd/fe/main.go:176-177 | after a poll that did not fail, a second poll with the same modification time is "unchanged" whatever the file now holds, so the file is not re-read |
| Loader.ReloadRetriesAfterFailure | cmd/fe/main.go:179-183 | a failed load does not consume the new modification time: the next poll with the same time and a decodable file loads it |
| Proxy.GetProxy | cmd/fe/main.go:227-234 | a lookup returns a target exactly when a table is installed and holds the name, and then it returns that name's target; otherwise it returns none |
| Proxy.Update | cmd/fe/main.go:212-225 | after an update, a name resolves to the target for its host exactly when it is a key with a non-empty name and a non-empty host; every other name resolves to none, whatever the previous table held; the route count equals the number of such names |
| Proxy.UpdateByRange | cmd/fe/main.go:215-224 | the Go loop over the host map, in any iteration order, with empty names or hosts skipped, builds exactly the table Update describes |
| Proxy.UpdateReplacesWholeTable | cmd/fe/main.go:215 | the table after an update does not depend on the table before it; `Update` never reads its receiver, which this records |
| Proxy.UpdateFiltersInvalidEntries | cmd/fe/main.go:216-219 | from {"": "h1:1", "a": "", "b": "h2:2"} only the route b → h2:2 is installed |
| Proxy.Names | cmd/fe/main.go:236-246 | the listed names are exactly the names a lookup resolves, each listed once; the list is empty before any update |
| ReloadLoop.Step | cmd/fe/main.go:108-118 | the table is replaced, by the update with the returned map, exactly when the poll returns a map; after a failure or an unchanged poll it is untouched; the loop sleeps 5 seconds after a failure and 1 second otherwise |
| ReloadLoop.FailedStepKeepsRoutes | cmd/fe/main.go:108-111 | a failed poll leaves both the loader and every lookup result as they were |
| ReloadLoop.ChangedStepInstallsList | cmd/fe/main.go:108-115 | after a poll that sees a new modification time and a decodable list, a name resolves to a host's target if and only if the last record with that name has that dashboard, and neither the name nor the host is empty |
| ReloadLoop.RepeatedStepIsStable | cmd/fe/main.go:108-117 | repeating a poll that did not fail, with the same modification time, changes nothing and sleeps the short interval |
| ReloadLoop.RunWithoutChangeRoutesNothing | cmd/fe/main.go:106-118 | from start-up, any sequence of polls none of which returned a fresh map (failed or unchanged polls) leaves every lookup returning none |
| ReloadLoop.EmptyLaterRecordRemovesRoute | cmd/fe/main.go:200-203 | for the records [a → h1:1, a → ""] the installed table has no route for "a": the later empty dashboard wins and is then filtered |

## Left out

- HTTP transport and its dial timeout are not modelled: they are network I/O.
- The idle-connection reaper goroutine is not modelled: it is a timer.
- CLI parsing, log setup and GOMAXPROCS are not modelled.
- The Martini server and static assets are not modelled.
- The `/list` endpoint, its JSON envelope and its sort are not modelled. `Proxy.Names` returns the names in arbitrary order, as the Go map range does.
- Request forwarding and the 403 reply for an unknown name are not modelled. `Proxy.GetProxy` returning none is the point where that reply is chosen.
- Reading the file and decoding JSON are taken as the input `Contents`. A `null` element in the JSON array makes cmd/fe/main.go:202 dereference a nil pointer; that case is not modelled.
- `errors.Trace` is assumed to map a nil error to nil, so an unchanged file yields no error. The errors package is not part of this model.
- The mutex and concurrency are not modelled. Each operation is one atomic transition of an immutable value.
- The sleeps are not modelled. Their lengths are part of `ReloadLoop.Step`'s result.
- Construction of `httputil.NewSingleHostReverseProxy` for `http://host` is not modelled. A target is its host.
- The shared transport (cmd/fe/main.go:222) is not modelled.
