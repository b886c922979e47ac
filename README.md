# Notebook API handler: correlating kernel messages with one request

Kernel Gateway can turn an annotated notebook into an HTTP service: each
HTTP method of an endpoint is served by running a notebook cell on a Jupyter
kernel. `NotebookAPIHandler` sends the cell to a kernel and listens to the
kernel's IOPub channel. It keeps only the messages whose parent `msg_id` is
that of the cell execution. From those it collects the last
`execute_result` data, the `stream` texts in arrival order and the last
`error`. When the cell execution reports `status` idle, it resolves the
execution future with a `{status, content}` response.

This project models that handler:

- `iopub.dfy` (module `IOPub`): the IOPub messages as the handler sees them.
  A message is its parent `msg_id` plus a `msg_type` with the content fields
  the handler reads.
- `notebooks.dfy` (module `Notebooks`): the handler. The class
  `NotebookApiHandler` has the fields `on_recv` changes. `OnRecv` is proved
  equal to the pure step function `Step`. `TerminalResult` is the idle-branch
  response. `MethodGate` is the 405 check. `BeginRequest` resets the fields
  and creates the future. `RecordExecutions` records the msg_id of the second
  `execute` call.
- `correlation.dfy` (module `Correlation`): `Run`, the state after a whole
  sequence of `on_recv` calls. It also holds reference definitions over the
  message sequence alone (`StreamTexts`, `LastError`, `LastResult`, `Own`).
  The lemmas tie `Run` to them. `ResolvesOnIdle` states the response of a
  whole request.
- `scenario.dfy` (module `Scenario`): one endpoint, `GET` served by
  `print(1+1)`, proved both as a lemma and by driving the class's methods.

Two behaviours of the code are worth stating plainly:

- With no error and a non-empty `execute_result` the handler answers 200
  with `self.error_message`, which is None there, so neither the result
  data nor the stream text is sent (`TerminalResultCases`,
  `ResultBranchCarriesNoContent`).
- Later `execute_result` and `error` messages overwrite earlier ones, so
  the last of each wins (`RunLastResult`, `RunLastError`). The error text is
  `"Error <ename>: <evalue> \n"`, with the trailing space and newline the
  code writes.

A `status` idle message for the recorded execution resolves the future. The
code never guards against a second one. The kernel reports each execution
idle once. So `OnRecv` and `Step` require the future to be pending when they
receive a matching idle. `Run` is defined only on sequences with at most one
such idle message while the future is pending (`Deliverable`).

A message without a parent `msg_id` makes `on_recv` raise `KeyError`. A
handler with no recorded msg_id makes it raise `AttributeError`. Both happen
before any field changes. `OnRecv` reports them as its `Outcome` and leaves
the state unchanged.

## Model

| member | source | states |
|---|---|---|
| `Notebooks.NotebookApiHandler.constructor` | kernel_gateway/services/notebooks/handlers.py:16-26 | a new handler keeps the given sources, has no result, no stream text, no error, no recorded msg_id and no future |
| `Notebooks.NotebookApiHandler.BeginRequest` | kernel_gateway/services/notebooks/handlers.py:64-74 | the result, stream list and error are reset to None, [] and None; a method with no cell gives 405 and creates no future; otherwise the future is created pending and the cell's source is selected |
| `Notebooks.MethodGate` | kernel_gateway/services/notebooks/handlers.py:68-72 | the request proceeds exactly when its method has a cell, with that cell's source; otherwise the status is 405 |
| `Notebooks.NotebookApiHandler.RecordExecutions` | kernel_gateway/services/notebooks/handlers.py:96-97 | the msg_id recorded for correlation is the one returned by the second `execute` (the cell), not the first (the request code) |
| `Notebooks.NotebookApiHandler.OnRecv` | kernel_gateway/services/notebooks/handlers.py:28-59 | the new state is `Step` of the old state and the message; a missing parent msg_id raises KeyError and a missing recorded msg_id raises AttributeError, in that order |
| `Notebooks.FormatError` | kernel_gateway/services/notebooks/handlers.py:55-59 | the stored error text is never empty, so the idle branch always takes a stored error as set |
| `Notebooks.TerminalResult` | kernel_gateway/services/notebooks/handlers.py:39-46 | the idle response has status 200 or 500 and no other |
| `Correlation.TerminalResultCases` | kernel_gateway/services/notebooks/handlers.py:39-46 | a set error gives 500 with the error text, whatever the result or streams; otherwise a non-empty result gives 200 with the (None) error text; otherwise 200 with the stream texts joined, '' when there are none |
| `Correlation.ForeignMessageIgnored` | kernel_gateway/services/notebooks/handlers.py:36 | a message whose parent msg_id is not the recorded one changes no field and does not resolve the future |
| `Correlation.OnlyOwnIdleResolves` | kernel_gateway/services/notebooks/handlers.py:38-47 | the future changes exactly when the message is an idle status of the recorded execution, and then it holds the idle response of the current state |
| `Correlation.StreamAppends` | kernel_gateway/services/notebooks/handlers.py:52-53 | a matching stream message appends its text at the end of the stream list and changes nothing else |
| `Correlation.ExecuteResultOverwrites` | kernel_gateway/services/notebooks/handlers.py:49-50 | a matching execute_result replaces the stored data with its `data` and changes nothing else |
| `Correlation.ErrorOverwrites` | kernel_gateway/services/notebooks/handlers.py:55-59 | a matching error sets the error text to "Error " + ename + ": " + evalue + " \n", replacing any earlier one, changes nothing else and does not resolve the future |
| `Correlation.Run` | kernel_gateway/services/notebooks/handlers.py:28-59 | over a message sequence the recorded msg_id never changes, and the future changes exactly when the sequence holds an idle status of the recorded execution |
| `Correlation.RunIgnoresForeign` | kernel_gateway/services/notebooks/handlers.py:36 | however messages of other executions are interleaved, the final state equals the state from the recorded execution's messages alone |
| `Correlation.RequestCodeIgnored` | kernel_gateway/services/notebooks/handlers.py:96-97 | the messages of the request-code execution, whose msg_id is not recorded, leave the whole state unchanged |
| `Correlation.RunStreams` | kernel_gateway/services/notebooks/handlers.py:52-53 | after a sequence the stream list is the earlier list followed by the matching stream texts in arrival order |
| `Correlation.RunLastResult` | kernel_gateway/services/notebooks/handlers.py:49-50 | after a sequence the stored data is that of the last matching execute_result, or the earlier value if there is none |
| `Correlation.RunLastError` | kernel_gateway/services/notebooks/handlers.py:55-59 | after a sequence the error text is that of the last matching error, or the earlier value if there is none |
| `Correlation.ResolvesOnIdle` | kernel_gateway/services/notebooks/handlers.py:38-47 | a started request is resolved by its idle status with: 500 and the last error's text when any error of its execution came first; else 200 and None when its last execute_result was non-empty; else 200 and its stream texts joined in order |
| `Correlation.ResolutionIsFinal` | kernel_gateway/services/notebooks/handlers.py:47 | after resolution, any message sequence without a second idle status of the recorded execution leaves the response unchanged |
| `Correlation.ResultBranchCarriesNoContent` | kernel_gateway/services/notebooks/handlers.py:43-44 | a non-empty result followed by stream text and idle resolves with status 200 and no content: neither the result nor the stream text is returned |
| `Scenario.PrintScenario` | kernel_gateway/services/notebooks/handlers.py:64-72 | with only `GET` configured, `PUT` gets 405 and a `GET` whose cell prints "2" is answered 200 with "2" |

## Left out

- The kernel pool: `acquire`, the `on_recv` registration and `release` (lines 77, 80, 106) are calls into code that is not part of this model. The release in `finally` is therefore not modelled.
- `kernel_client.execute` is a foreign call. The msg_ids it returns are parameters of `RecordExecutions`.
- HTTP output: `set_status`, `set_header`, `write` and `finish` (lines 70-71, 101-103, 107). This includes what Tornado does when `write` is given the `None` content of the result branch.
- Coroutine plumbing: the `get`, `post`, `put`, `delete` and `options` handlers, and `response_future`, which is created and never resolved (lines 75, 109-130).
- Request translation: `parse_body`, `parse_args`, `headers_to_dict`, `format_request` and `json.dumps` (lines 85-92). They are library code and not part of this model. Only the choice of the cell source (line 83) is modelled.
- `access_log` debug logging (line 95).
- `NotebookDownloadHandler` (lines 132-139), a wrapper over Tornado's static file handler.
- `TokenAuthorizationMixin` and `CORSMixin`, which are not part of this model.
- Concurrency between requests that share the class-level defaults (lines 16-21). The model is one handler processing one ordered message sequence.
- The `kernel_pool` and `kernel_name` fields set by `initialize` are only used by the left-out pool calls.
- Content keys missing from a message of a known type (`execution_state`, `data`, `text`, `ename`, `evalue`) would raise `KeyError`. Messages are modelled as always carrying them, as the messaging protocol requires.
- `OnRecv`: requires the future to be pending when it receives an idle status of the recorded execution. The code would call `set_result` a second time; the kernel reports each execution idle only once.
- ResolutionIsFinal: does not cover a second idle status of the recorded execution after resolution, on which line 47 calls `set_result` again; the model assumes the kernel reports each execution idle once.
