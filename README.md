# ELM327 OBD-II dashboard: connection and telemetry core in Dafny

This project models the connection and telemetry core of a React/Capacitor OBD-II dashboard
for a diesel car. The app talks to an ELM327 adapter over three links:

- Bluetooth Low Energy, through the `ELM327BLE` transport;
- classic serial Bluetooth, through the `useClassicBluetooth` hook;
- WiFi, through a WebSocket. This is done by the `WiFiELM327` transport class with its
  first-in first-out command queue, and by the simpler `useWiFiELM327` hook.

On top of the links sit these hooks and components:

- `useELM327`, the device list;
- `useELM327Connection`, one session over either transport;
- `useConnectionManager`, one view over the classic and WiFi hooks;
- `useOBDData`, the simulated live data and bounded chart history;
- `AlertSystem`, which raises threshold alerts with a 30-second cooldown per alert key.

Each source file becomes one Dafny module:

| source file | module |
|---|---|
| `src/lib/wifi-elm327.ts` | `WiFiTransport`, with its queue transitions in `WiFiQueue`, the address check in `Ipv4`, the canned web-build replies in `MockReplies` and command framing in `Framing` |
| `src/lib/bluetooth-le.ts` | `BleTransport` |
| `src/hooks/useOBDData.ts` | `ObdData` |
| `src/components/AlertSystem.tsx` | `AlertSystem` |
| `src/hooks/useELM327.ts` | `Elm327Devices` |
| `src/hooks/useClassicBluetooth.ts` | `ClassicBluetooth` |
| `src/hooks/useELM327Connection.ts` | `Elm327Connection` |
| `src/hooks/useWiFiELM327.ts` | `WiFiHook` |
| `src/hooks/useConnectionManager.ts` | `ConnectionManager` |

`Common` holds `Option`, `Result` and `Status`. `Text` holds the JavaScript string operations
the source uses: `trim`, `toUpperCase` (on ASCII letters; see "Left out"), `split`, `includes`, decimal and hexadecimal text, and
`padStart`.

Objects whose fields the source updates in place are classes with `modifies` clauses: the two
transports, the alert cooldown dictionary, and every hook's React state. React state setters
run in program order.

Everything outside the program is a parameter of the method that consumes it:

- what the Bluetooth plugins, the WebSocket and the random generator answer;
- the clock;
- the timers and socket events, which are methods the environment calls.

Each plugin or socket call is recorded in a sequence field, so contracts can state what was
sent and in what order.

The WiFi transport's queue is specified by pure transitions over a `Machine` value (module
`WiFiQueue`): `Dispatch`, `Execute`, `Enqueue`, `RejectNow`, `Complete`, `TimeOut` and
`Abort`.

- Every class method is proved to perform exactly one transition on the queue, or to leave it unchanged.
- Every transition is proved to keep the queue invariant `Coherent`. It says four things:
  - tickets are first in, first out;
  - at most one command is in flight;
  - pending promises are unsettled, and no ticket is lost;
  - a settled promise never changes (`Extends`).
- A `sendCommand` promise is modelled as the ticket `SendCommand` returns. Its outcome is the
  entry for that ticket in the `settled` map.

## Model

| member | source | states |
|---|---|---|
| Ipv4.IsValidIPv4 | src/lib/wifi-elm327.ts:36-39 | An address passes exactly when it splits at its dots into four pieces, each one to three digits with value at most 255. |
| Ipv4.OctetsAreSmallDecimals | src/lib/wifi-elm327.ts:36 | Piece by piece, the octet alternatives accept exactly the small decimals. |
| Framing.Frame | src/lib/wifi-elm327.ts:217-220 | The wire text is the command or the command plus one character. |
| Framing.FrameFacts | src/lib/bluetooth-le.ts:177-180 | The framed command always ends in a carriage return. It equals the command exactly when the command already ends in one, and otherwise has one appended. |
| Framing.FrameIdempotent | src/lib/wifi-elm327.ts:217-220 | Framing twice is framing once, and the framed text starts with the command. |
| Ipv4.OctetPatternIsSmallDecimal | src/lib/wifi-elm327.ts:36 | One octet alternative of the address pattern accepts exactly the strings of one to three digits whose value is at most 255. |
| Ipv4.OctetPatternAdmitsLeadingZeros | src/lib/wifi-elm327.ts:36 | Every RFC 3986 `dec-octet` is accepted. "010" is accepted too, though the RFC grammar rejects it. |
| Ipv4.DottedQuadAccepted | src/lib/wifi-elm327.ts:36-39 | Any four accepted octets joined by dots pass the check. |
| Ipv4.AcceptedIsDottedQuad | src/lib/wifi-elm327.ts:36-39 | An accepted address is its dot-split pieces rejoined, and holds only digits and dots. |
| Ipv4.ThreeDigitValue | src/lib/wifi-elm327.ts:36 | The value of a three-digit octet is its positional decimal value. |
| Ipv4.JoinOfDigitsHasDigitsAndDots | src/lib/wifi-elm327.ts:36 | Digit strings joined by dots hold only digits and dots. |
| MockReplies.HexReplyFacts | src/lib/wifi-elm327.ts:233-242 | A header, a zero-padded hex field and the terminator carry the field's value between header and terminator. |
| MockReplies.CoolantReply | src/lib/wifi-elm327.ts:233-234 | The reply is "4105", at least two hex digits whose value is the coolant byte, then "\r\n>". |
| MockReplies.RpmReply | src/lib/wifi-elm327.ts:235-238 | The reply is "410C", at least four hex digits whose value is four times the engine speed, then "\r\n>". |
| MockReplies.VoltageReply | src/lib/wifi-elm327.ts:239-242 | The reply is "4142", at least two hex digits whose value is the voltage in tenths, then "\r\n>". |
| MockReplies.MockReply | src/lib/wifi-elm327.ts:226-250 | The canned reply always ends in "\r\n>" and holds the prompt. Tests run in source order, so "ATZ" wins over "AT", and "010C" is answered by the RPM reply only after the earlier tests fail. |
| MockReplies.RpmReplyInvertsScaling | src/lib/wifi-elm327.ts:235-238 | For every speed with 4*rpm < 65536, the reply is "410C", bytes A and B with 256*A+B == 4*rpm, then the terminator. This inverts the SAE J1979 scaling. |
| MockReplies.FourHexDigits | src/lib/wifi-elm327.ts:237 | Four hex digits are two bytes, high byte first. |
| MockReplies.CoolantReplyCarriesByte | src/lib/wifi-elm327.ts:233-234 | The coolant reply is "4105", the raw byte as two hex digits, then the terminator. |
| WiFiQueue.RejectAllFacts | src/lib/wifi-elm327.ts:325-327 | Rejecting the queue settles exactly the queued tickets with the reason and keeps every other settled promise. |
| WiFiQueue.RejectAllSnoc | src/lib/wifi-elm327.ts:325-327 | Rejecting one more queued command extends the rejection by that ticket. |
| WiFiQueue.DispatchReady | src/lib/wifi-elm327.ts:188-195 | On a ready link the head of the queue goes in flight. Natively it is written framed and the 5 s timer is armed; on the web build it is handed to the mock. |
| WiFiQueue.DispatchRefused | src/lib/wifi-elm327.ts:208-211 | A refusing link rejects the head of the queue with "Not connected to WiFi ELM327". |
| WiFiQueue.ThrowHead | src/lib/wifi-elm327.ts:266-270 | A throwing send rejects the head, and dispatch continues with the rest. |
| WiFiQueue.DispatchThrows | src/lib/wifi-elm327.ts:256-270 | On a native socket that is still connecting, the whole queue is rejected in order and nothing is written. |
| WiFiQueue.DispatchTakesFromFront | src/lib/wifi-elm327.ts:188-195 | Dispatch only removes commands from the front of the queue, and does nothing while a command is in flight. |
| WiFiQueue.DispatchKeepsOtherTimer | src/lib/wifi-elm327.ts:223-265 | Each platform arms only its own reply timer. |
| WiFiQueue.StrandedAfterRefusal | src/lib/wifi-elm327.ts:188-211 | A refusing link rejects only the head. The rest stay queued with nothing in flight and no timer. |
| WiFiQueue.SettleInFlightCoherent | src/lib/wifi-elm327.ts:174-181 | Settling the command in flight keeps the invariant and settles that ticket only. |
| WiFiQueue.TakeHeadCoherent | src/lib/wifi-elm327.ts:190-192 | Putting the head in flight keeps the invariant. |
| WiFiQueue.DispatchCoherent | src/lib/wifi-elm327.ts:188-271 | `processCommandQueue` keeps the invariant and never changes a settled promise. |
| WiFiQueue.AppendOrdered | src/lib/wifi-elm327.ts:286 | Appending the next ticket keeps the queue's tickets fresh, unsettled and increasing. |
| WiFiQueue.AppendCovered | src/lib/wifi-elm327.ts:286 | After appending, the command in flight precedes the queue and no ticket is lost. |
| WiFiQueue.AppendCoherent | src/lib/wifi-elm327.ts:286 | Queueing the next ticket last keeps the invariant, one ticket on. |
| WiFiQueue.EnqueueCoherent | src/lib/wifi-elm327.ts:285-291 | The accepted branch of `sendCommand` keeps the invariant and changes no settled promise. |
| WiFiQueue.RejectNowCoherent | src/lib/wifi-elm327.ts:280-283 | The refused branch settles only the new ticket, with "Not connected to WiFi ELM327". |
| WiFiQueue.CompleteCoherent | src/lib/wifi-elm327.ts:158-182 | A complete response keeps the invariant and resolves exactly the command in flight. |
| WiFiQueue.TimeOutCoherent | src/lib/wifi-elm327.ts:259-265 | The response timer keeps the invariant and rejects exactly the command in flight. |
| WiFiQueue.AbortCoherent | src/lib/wifi-elm327.ts:318-337 | The native disconnect keeps the invariant and changes no settled promise. Afterwards every ticket handed out is settled. |
| WiFiTransport.ValidAddressHasNoDash | src/lib/wifi-elm327.ts:36-39 | An address that passes the check holds no '-'. |
| WiFiTransport.DeviceIdIdentifiesEndpoint | src/lib/wifi-elm327.ts:54 | For addresses without '-', two endpoints share a `wifi-ip-port` id only if they are equal. |
| WiFiTransport.WiFiElm327.constructor | src/lib/wifi-elm327.ts:19-26 | A fresh transport: no socket, no device, an empty queue and buffer, nothing settled. |
| WiFiTransport.WiFiElm327.ProcessCommandQueue | src/lib/wifi-elm327.ts:188-195 | The new queue state is `Dispatch` of the old one, and the invariant holds. |
| WiFiTransport.WiFiElm327.ExecuteCommand | src/lib/wifi-elm327.ts:203-271 | The new queue state is `Execute` of the old one: refuse, mock, send and arm the timer, or reject on a throw. |
| WiFiTransport.WiFiElm327.SendCommand | src/lib/wifi-elm327.ts:278-293 | A fresh ticket is returned. Not connected gives `RejectNow`; connected gives `Enqueue`. |
| WiFiTransport.WiFiElm327.Accept | src/lib/wifi-elm327.ts:285-291 | The queue state becomes `Enqueue` of the old one. |
| WiFiTransport.WiFiElm327.HandleIncomingData | src/lib/wifi-elm327.ts:153-183 | Without '>' the data is only buffered. With it, the trimmed buffer is delivered, the command in flight is completed and the buffer is cleared. |
| WiFiTransport.WiFiElm327.TakeResponse | src/lib/wifi-elm327.ts:158-182 | The buffer is cleared, the trimmed text goes to the callback if one is set, and the queue performs `Complete`. |
| WiFiTransport.WiFiElm327.Respond | src/lib/wifi-elm327.ts:160-181 | The queue state becomes `Complete` of the old one. |
| WiFiTransport.WiFiElm327.ResponseTimeoutFires | src/lib/wifi-elm327.ts:259-265 | The queue state becomes `TimeOut` of the old one. |
| WiFiTransport.WiFiElm327.MockReplyFires | src/lib/wifi-elm327.ts:226-250 | The command in flight is completed with the trimmed canned reply. |
| WiFiTransport.WiFiElm327.Disconnect | src/lib/wifi-elm327.ts:298-339 | Nothing happens when not connected. On the web build only the flag and device are dropped. Natively the socket is closed and every pending promise is rejected (`Abort`). |
| WiFiTransport.WiFiElm327.CloseNative | src/lib/wifi-elm327.ts:311-338 | The link is cleared and the queue state becomes `Abort` of the old one. |
| WiFiTransport.WiFiElm327.CloseLink | src/lib/wifi-elm327.ts:309-316 | The socket is closed and dropped, and the flag, device and buffer are cleared. |
| WiFiTransport.WiFiElm327.RejectPending | src/lib/wifi-elm327.ts:318-337 | The queue state becomes `Abort` of the old one. |
| WiFiTransport.WiFiElm327.RejectQueued | src/lib/wifi-elm327.ts:325-327 | The settled map becomes `RejectAll` of the queue with "Disconnected". |
| WiFiTransport.WiFiElm327.Connect | src/lib/wifi-elm327.ts:34-125 | An invalid address is refused with no change. A connected native transport disconnects first, so every pending command is rejected (`Abort`) and the buffer cleared; otherwise the queue and buffer are untouched. The ticket counter, callback and deliveries never change. The web build records the device and schedules the mock; a native one opens a socket and arms the 10 s timer. |
| WiFiTransport.WiFiElm327.OpenLink | src/lib/wifi-elm327.ts:46-124 | On a disconnected transport the endpoint is recorded with the connect pending. The web build is connected to `wifi-ip-port` with the mock timer due; a native one has a connecting socket and the 10 s timer armed. The queue is untouched. |
| WiFiTransport.WiFiElm327.SettleConnect | src/lib/wifi-elm327.ts:46-125 | The connect promise settles once; later settlements are ignored. |
| WiFiTransport.WiFiElm327.StartInit | src/lib/wifi-elm327.ts:130-133 | "ATZ" is sent through `sendCommand` and its ticket is awaited. |
| WiFiTransport.WiFiElm327.ResumeInit | src/lib/wifi-elm327.ts:133-146 | A rejection ends the init. A resolution sends the next init command, until "ATSP0" is done. |
| WiFiTransport.WiFiElm327.SocketOpened | src/lib/wifi-elm327.ts:84-101 | The device `wifi-ip-port` is recorded, the timer is cleared, the connect settles with it and "ATZ" is queued. |
| WiFiTransport.WiFiElm327.RecordOpen | src/lib/wifi-elm327.ts:85-98 | The socket is open, the flag is set and the device is recorded. |
| WiFiTransport.WiFiElm327.SocketClosed | src/lib/wifi-elm327.ts:103-109 | The flag, device and socket are cleared, and the queue is untouched. |
| WiFiTransport.WiFiElm327.SocketErrored | src/lib/wifi-elm327.ts:111-115 | A pending connect is rejected. |
| WiFiTransport.WiFiElm327.ConnectTimeoutFires | src/lib/wifi-elm327.ts:79-82 | A pending connect is rejected with a timeout and the socket is closing. |
| WiFiTransport.WiFiElm327.MockConnectTimerFires | src/lib/wifi-elm327.ts:65-68 | The init starts and a pending connect resolves with the device. |
| WiFiTransport.WiFiElm327.SetMessageCallback | src/lib/wifi-elm327.ts:345-347 | A callback is registered. |
| WiFiTransport.WiFiElm327.RemoveMessageCallback | src/lib/wifi-elm327.ts:352-354 | No callback is registered. |
| WiFiTransport.WiFiElm327.IsDeviceConnected | src/lib/wifi-elm327.ts:360-362 | The answer is the flag, which holds exactly when a device is recorded. |
| WiFiTransport.WiFiElm327.GetConnectedDevice | src/lib/wifi-elm327.ts:368-370 | The answer is the recorded device, present exactly when connected. |
| BleTransport.Adapters | src/lib/bluetooth-le.ts:102-110 | The scan keeps at most as many devices as results. |
| BleTransport.AdaptersAreOrderedMatches | src/lib/bluetooth-le.ts:104-107 | The j-th kept device is the device of the j-th result that passes the name filter, in arrival order. |
| BleTransport.AdaptersAreAllMatches | src/lib/bluetooth-le.ts:104-107 | Every result whose name or local name contains "ELM" or "OBD" is kept. |
| BleTransport.SendOutcome | src/lib/bluetooth-le.ts:183-190 | A failed write's error is rethrown; otherwise the read's outcome is returned. |
| BleTransport.RunInitStep | src/lib/bluetooth-le.ts:130-141 | While no init command has failed, the next one is written framed and read. |
| BleTransport.RunInitStops | src/lib/bluetooth-le.ts:130-141 | After a failure no later init command is sent. |
| BleTransport.InitCommandsFramed | src/lib/bluetooth-le.ts:131-135 | Each init command gains exactly one carriage return on the wire. |
| BleTransport.InitWritesInOrder | src/lib/bluetooth-le.ts:130-141 | When all writes and reads succeed, the four commands go out framed, in order, each followed by one read. |
| BleTransport.Elm327Ble.constructor | src/lib/bluetooth-le.ts:75-78 | A fresh transport with no device, no callback and no calls. |
| BleTransport.Elm327Ble.Initialize | src/lib/bluetooth-le.ts:83-91 | The plugin's outcome is passed on. |
| BleTransport.Elm327Ble.ScanForDevices | src/lib/bluetooth-le.ts:98-117 | A failure is rethrown; otherwise the result is the filtered adapters. |
| BleTransport.Elm327Ble.ConnectToDevice | src/lib/bluetooth-le.ts:123-142 | A failed link clears the session and is rethrown. Otherwise the device is recorded and the init run. The first init failure clears the session and is rethrown. |
| BleTransport.Elm327Ble.SendInitCommands | src/lib/bluetooth-le.ts:130-141 | The calls are those of `RunInit`, and a failure clears the session. An empty id is refused at once. |
| BleTransport.Elm327Ble.SendInitCommand | src/lib/bluetooth-le.ts:131 | One init command extends the init run by one step. |
| BleTransport.Elm327Ble.SendCommand | src/lib/bluetooth-le.ts:171-192 | Refused unless the id is truthy and connected. Otherwise the framed command is written, then read. |
| BleTransport.Elm327Ble.Disconnect | src/lib/bluetooth-le.ts:147-164 | Nothing happens without an id. Otherwise notifications are stopped first, then the link is dropped; a failure is rethrown. |
| BleTransport.Elm327Ble.StartNotifications | src/lib/bluetooth-le.ts:198-219 | Refused unless connected. The callback is recorded before the plugin call. |
| BleTransport.Elm327Ble.StopNotifications | src/lib/bluetooth-le.ts:224-237 | Acts only when connected with a callback. The callback is dropped only on success. |
| BleTransport.Elm327Ble.IsDeviceConnected | src/lib/bluetooth-le.ts:242-244 | The answer is the flag, which holds exactly when an id is recorded. |
| BleTransport.Elm327Ble.GetConnectedDeviceId | src/lib/bluetooth-le.ts:249-251 | The answer is the id, present exactly when connected. |
| ObdData.InitialReading | src/hooks/useOBDData.ts:43-62 | The initial reading is connected, stamped now, at 800 rpm, 88 °C and 12.4 V. |
| ObdData.Simulate | src/hooks/useOBDData.ts:73-95 | The boost pressure is never negative. |
| ObdData.SimulateCarriesOver | src/hooks/useOBDData.ts:73-95 | A tick replaces only the simulated channels and the timestamp. Every other field, including `connected`, carries over. |
| ObdData.LastPoints | src/hooks/useOBDData.ts:102 | `slice(-n)` keeps at most n points. |
| ObdData.Push | src/hooks/useOBDData.ts:101-104 | A pushed series holds between 1 and 30 points. |
| ObdData.PushKeepsNewest | src/hooks/useOBDData.ts:101-104 | The new point is last, after the last min(29, n) old points in order. |
| ObdData.PushAllKeepsWindow | src/hooks/useOBDData.ts:97-106 | A series always holds the last min(30, total) points ever pushed, oldest first. |
| ObdData.LastPointsOfSuffix | src/hooks/useOBDData.ts:101-104 | Trimming to the window early or late gives the same window. |
| ObdData.FortyPushes | src/hooks/useOBDData.ts:101-104 | Forty pushes leave thirty points, the oldest being the eleventh push. |
| ObdData.PushKeepsLabels | src/hooks/useOBDData.ts:99-105 | Series pushed under the same label stay equally long, with equal labels. |
| ObdData.AddHistoricalPoint | src/hooks/useOBDData.ts:97-106 | Each of the four series holds 1 to 30 points, the newest being the reading's value under the new time label. |
| ObdData.AddHistoricalPointAligned | src/hooks/useOBDData.ts:97-106 | The four series stay equally long, within the window and labelled alike, with the new label last. |
| ObdData.GetStatus | src/hooks/useOBDData.ts:122-126 | Danger iff value >= danger; warning iff warning <= value < danger; normal otherwise. |
| ObdData.GetStatusMonotone | src/hooks/useOBDData.ts:122-126 | When warning <= danger, a larger value is never rated better. |
| ObdData.GetVoltageStatus | src/hooks/useOBDData.ts:128-132 | Danger iff below 12.0 V; warning iff in [12.0, 12.2); normal otherwise. |
| ObdData.GetVoltageStatusAntitone | src/hooks/useOBDData.ts:128-132 | A lower voltage is never rated better. |
| ObdData.ObdDataHook.constructor | src/hooks/useOBDData.ts:43-69 | The hook starts from the initial reading with empty series. |
| ObdData.ObdDataHook.Tick | src/hooks/useOBDData.ts:109-113 | The reading is simulated and its values are pushed under the tick's label. |
| ObdData.ObdDataHook.IsConnected | src/hooks/useOBDData.ts:139 | Always true. |
| AlertSystem.DangerKeyIsNotWarningKey | src/components/AlertSystem.tsx:42-48 | A metric's danger and warning alerts have separate cooldown keys. |
| AlertSystem.DangerWithinWarning | src/components/AlertSystem.tsx:19-24 | Every danger threshold implies its warning threshold. |
| AlertSystem.EngineTempMatchesGetStatus | src/components/AlertSystem.tsx:42-54 | Engine-temperature alert levels coincide with `getStatus(t, 95, 105)`. |
| AlertSystem.VoltageAlertVersusStatus | src/components/AlertSystem.tsx:57-69 | Voltage alerts agree with `getVoltageStatus` except at exactly 12.0 V and 12.2 V, where the inclusive alert bounds differ. |
| AlertSystem.WarningAtNormalVoltage | src/components/AlertSystem.tsx:63 | At 12.2 V a warning fires once cooled down, though the dashboard rates 12.2 V normal. |
| AlertSystem.CheckMetric | src/components/AlertSystem.tsx:42-54 | An alert is for the metric checked, at a non-normal level, only when the warning threshold holds. Without an alert the map is unchanged; no key is ever dropped. |
| AlertSystem.CheckAll | src/components/AlertSystem.tsx:40-101 | At most one alert per checked metric, each for a checked metric at a non-normal level. No key is ever dropped. |
| AlertSystem.CheckMetricFacts | src/components/AlertSystem.tsx:42-54 | A metric raises at most one alert, danger first, only when its threshold holds and its key has cooled down. Only that key is stamped. |
| AlertSystem.CooldownNeedsThreshold | src/components/AlertSystem.tsx:42-54 | A cooldown entry changes only while its threshold holds. |
| AlertSystem.CheckAllAlerts | src/components/AlertSystem.tsx:40-101 | Alerts are only for the checked metrics, at most one each, at non-normal levels. |
| AlertSystem.CheckAllKeys | src/components/AlertSystem.tsx:40-101 | No cooldown key is ever dropped. A new key belongs to a raised alert. |
| AlertSystem.CheckAllStamps | src/components/AlertSystem.tsx:40-101 | Only the keys of raised alerts get a new time. |
| AlertSystem.CheckAllStep | src/components/AlertSystem.tsx:40-101 | Checking a list is checking its head, then the rest on the updated map. |
| AlertSystem.CheckAllInOrder | src/components/AlertSystem.tsx:40-101 | The effect is the four metric checks in source order, each on the map the last left. |
| AlertSystem.OneAlertPerMetric | src/components/AlertSystem.tsx:40-101 | One reading raises at most four alerts, one per metric. Only raised alerts' keys change. |
| AlertSystem.AlertSystem.ShouldAlert | src/components/AlertSystem.tsx:28-38 | Yes iff more than 30000 ms have passed since the key's last alert (a missing key counts as 0). On yes the key alone is stamped. |
| AlertSystem.AlertSystem.AlertFor | src/components/AlertSystem.tsx:42-54 | One metric's if/else-if, with the map updated as `CheckMetric` says. |
| AlertSystem.AlertSystem.OnData | src/components/AlertSystem.tsx:40-101 | The alerts and the new map are those of `CheckAll` over the four metrics. |
| Elm327Devices.FindFacts | src/hooks/useELM327.ts:68 | `find` succeeds exactly when some entry has the id, and returns such an entry. |
| Elm327Devices.AddUnique | src/hooks/useELM327.ts:67-71 | The old list is kept as a prefix, with at most one entry added, and an added entry is the new device. |
| Elm327Devices.AddUniqueFacts | src/hooks/useELM327.ts:67-71 | A known id keeps the list; a new one is appended. With unique ids, ids stay unique. |
| Elm327Devices.MarkConnected | src/hooks/useELM327.ts:148-150 | Marking a device connected keeps the list's length (the WiFi path does the same at lines 166-168). |
| Elm327Devices.MarkConnectedFacts | src/hooks/useELM327.ts:166-168 | Only entries with the id change: they are marked connected and stamped. |
| Elm327Devices.MarkDisconnectedFacts | src/hooks/useELM327.ts:204-206 | Only the flag of the entries with the id is cleared. |
| Elm327Devices.WiFiDevice | src/hooks/useELM327.ts:94-99 | A new WiFi entry is unconnected and never connected before; its id starts with "wifi-" and ends with the port's digits. |
| Elm327Devices.ParseWiFiId | src/hooks/useELM327.ts:160 | Neither parsed piece holds ':'. Without a port, the address is the whole id after "wifi-" is removed. |
| Elm327Devices.WiFiIdRoundTrip | src/hooks/useELM327.ts:160 | For an address without ':', parsing the id gives back the address and the port's digits, which read back as the port. |
| Elm327Devices.WiFiIdsDistinct | src/hooks/useELM327.ts:94-99 | Different addresses or ports get different ids. |
| Elm327Devices.AutoConnectTarget | src/hooks/useELM327.ts:217-224 | A target exists only with auto-connect on, a preferred id and no connection. |
| Elm327Devices.AutoConnectTargetFacts | src/hooks/useELM327.ts:217-224 | The target is the listed, unconnected entry with the preferred id. |
| Elm327Devices.BluetoothLink | src/hooks/useELM327.ts:123-137 | The link is up only if the device was found, GATT connected and the service lookups succeeded. |
| Elm327Devices.AttemptedFacts | src/hooks/useELM327.ts:140-145 | All writes are attempted when all succeed; otherwise the last attempted one failed. |
| Elm327Devices.Elm327Hook.constructor | src/hooks/useELM327.ts:20-29 | Empty state and the default configuration: auto-connect, 10000 ms, 3 retries. |
| Elm327Devices.Elm327Hook.ScanBluetoothDevices | src/hooks/useELM327.ts:37-90 | Without Web Bluetooth or with no pick, nothing is added. Otherwise the picked device is added uniquely, named "ELM327 Device" if nameless. |
| Elm327Devices.Elm327Hook.AddWiFiDevice | src/hooks/useELM327.ts:93-113 | The entry `wifi-ip:port` is built and added uniquely. |
| Elm327Devices.Elm327Hook.ConnectDevice | src/hooks/useELM327.ts:116-187 | WiFi always connects. Bluetooth connects iff the link and all five writes succeed. Success marks the entry; failure drops the current device. |
| Elm327Devices.Elm327Hook.WriteInit | src/hooks/useELM327.ts:140-145 | The writes attempted are the init commands up to the first failure. |
| Elm327Devices.Elm327Hook.Disconnect | src/hooks/useELM327.ts:201-214 | Nothing happens without a current device. Otherwise its entry is marked disconnected and the session cleared. |
| ClassicBluetooth.FindAddress | src/hooks/useClassicBluetooth.ts:62 | A found device is in the list with that address. |
| ClassicBluetooth.FindAddressMisses | src/hooks/useClassicBluetooth.ts:62-63 | A miss means no entry has the address. |
| ClassicBluetooth.ConnectExclusivelyFacts | src/hooks/useClassicBluetooth.ts:65-67 | Exactly the entries with the address are marked connected, and all others not. |
| ClassicBluetooth.AtMostOneConnected | src/hooks/useClassicBluetooth.ts:65-67 | With distinct addresses, at most one entry is connected afterwards. |
| ClassicBluetooth.InitFailure | src/hooks/useClassicBluetooth.ts:55-60 | A recorded failure is a failing step. |
| ClassicBluetooth.InitFailureIsFirst | src/hooks/useClassicBluetooth.ts:55-60 | The recorded failure is the first failing step: every earlier one succeeded. |
| ClassicBluetooth.FailureStays | src/hooks/useClassicBluetooth.ts:55-60 | Later steps do not change a recorded failure. |
| ClassicBluetooth.InitWritesInOrder | src/hooks/useClassicBluetooth.ts:56-60 | The wire texts are "ATZ\r", "ATE0\r", "ATL0\r", "ATSP0\r", in order. |
| ClassicBluetooth.ClassicHook.ScanDevices | src/hooks/useClassicBluetooth.ts:20-46 | A denied permission, failed enable or failed list records its error. Otherwise the list replaces the devices. |
| ClassicBluetooth.SendGuard | src/hooks/useClassicBluetooth.ts:107-109 | The guard refuses, with "Not connected to a device.", exactly when the flag it sees is false. |
| ClassicBluetooth.ClassicHook.ConnectDevice | src/hooks/useClassicBluetooth.ts:48-84 | Corrected reading, with each init command sent through a `sendCommand` that sees the flag just set. A failed link records its error. Otherwise the hook is connected and the init runs, with its first failure recorded. After a full init, a listed device becomes current and the only connected entry. |
| ClassicBluetooth.ClassicHook.ConnectDeviceAsWritten | src/hooks/useClassicBluetooth.ts:48-84 | As written, with the `sendCommand` captured while unconnected. A failed link records its error. Otherwise the flag is set, yet "Not connected to a device." becomes the error, nothing is written and no device becomes current. |
| ClassicBluetooth.ClassicHook.RunInit | src/hooks/useClassicBluetooth.ts:55-60 | The returned failure is the one `InitFailure` names. |
| ClassicBluetooth.ClassicHook.SendCommand | src/hooks/useClassicBluetooth.ts:106-119 | Refused unless connected. Otherwise the command plus "\r" is written, and the trimmed read or the error is returned. |
| ClassicBluetooth.ClassicHook.Disconnect | src/hooks/useClassicBluetooth.ts:86-104 | Success clears the flag and device; a plugin failure changes nothing. |
| ClassicBluetooth.FreshConnectAsWritten | src/hooks/useClassicBluetooth.ts:48-60 | As written, a fresh hook that scanned and then connects is flagged connected with the "not connected" error, having written nothing, with no current device. |
| ClassicBluetooth.FreshConnect | src/hooks/useClassicBluetooth.ts:48-84 | Corrected, a fresh connect whose init steps all succeed writes "ATZ\r", "ATE0\r", "ATL0\r", "ATSP0\r" in order, records no error, and makes a listed device current and the only connected entry. |
| Elm327Connection.ErrorText | src/hooks/useELM327Connection.ts:60 | `message \|\| 'Unknown error'` is never empty, and equals a non-empty message. |
| Elm327Connection.DisconnectCalls | src/hooks/useELM327Connection.ts:204-208 | The session's transport is called iff it is the session's type and reports connected. |
| Elm327Connection.ConnectionHook.constructor | src/hooks/useELM327Connection.ts:43-51 | No session, no error and no calls. |
| Elm327Connection.ConnectionHook.InitializeBle | src/hooks/useELM327Connection.ts:56-63 | BLE is initialised only natively. A failure is recorded with its prefix. |
| Elm327Connection.ConnectionHook.ScanForDevices | src/hooks/useELM327Connection.ts:68-109 | Ignored while scanning. Otherwise the BLE scan results replace the list, or the error is recorded. |
| Elm327Connection.ConnectionHook.Disconnect | src/hooks/useELM327Connection.ts:202-228 | The calls are `DisconnectCalls`. The session resets unless the call failed, in which case the error is recorded. |
| Elm327Connection.ConnectionHook.BeginConnect | src/hooks/useELM327Connection.ts:115-124 | Connecting is raised, the error cleared and an existing session disconnected. |
| Elm327Connection.ConnectionHook.ConnectToBluetoothDevice | src/hooks/useELM327Connection.ts:114-153 | Ignored while connecting. Success sets the type, flag and device together; failure records "Failed to connect: ". |
| Elm327Connection.ConnectionHook.ConnectToWiFiDevice | src/hooks/useELM327Connection.ts:158-197 | The same as the Bluetooth path, with the device the WiFi transport resolves with. |
| Elm327Connection.ConnectionHook.SendCommand | src/hooks/useELM327Connection.ts:233-251 | Refused when not connected, and "Unknown connection type" without a type. Otherwise routed to the session's transport; a failure is recorded with "Command failed: ". |
| Elm327Connection.ConnectionHook.StartMonitoring | src/hooks/useELM327Connection.ts:256-272 | Starts BLE notifications or sets the WiFi callback. A failure is recorded. |
| Elm327Connection.ConnectionHook.StopMonitoring | src/hooks/useELM327Connection.ts:277-289 | Acts only on the session's transport when it reports connected. A failure is recorded. |
| Elm327Connection.ConnectionHook.StatusText | src/hooks/useELM327Connection.ts:294-307 | "Connecting..." while connecting, and "Disconnected" when not connected. |
| Elm327Connection.ConnectionHook.StatusTextOfSession | src/hooks/useELM327Connection.ts:294-307 | A connected session names its transport and device (the BLE name or id, or the WiFi address and port). It never shows the bare "Connected". |
| WiFiHook.DeviceAt | src/hooks/useWiFiELM327.ts:39-45 | The recorded device has the given address and port and is connected. |
| WiFiHook.DeviceMatchesListEntry | src/hooks/useWiFiELM327.ts:39-45 | The id and name equal those `addWiFiDevice` gives, and the id parses back to the address and port. |
| WiFiHook.Normalise | src/hooks/useWiFiELM327.ts:116 | The wire text is never empty and ends in a carriage return. |
| WiFiHook.NormaliseFramesOnce | src/hooks/useWiFiELM327.ts:116 | The wire text is the trimmed, upper-cased command followed by exactly one carriage return: no carriage return precedes the last. |
| WiFiHook.NormaliseIdempotent | src/hooks/useWiFiELM327.ts:116 | Normalising twice puts the same text on the wire as once. |
| WiFiHook.TrimFramed | src/hooks/useWiFiELM327.ts:116 | A trimmed text plus a carriage return trims back to the text. |
| WiFiHook.InitCommandIsWireForm | src/hooks/useWiFiELM327.ts:32-37 | Each init command is already in wire form. |
| WiFiHook.AnsweredAll | src/hooks/useWiFiELM327.ts:32-37 | When every exchange is answered, all of them count. |
| WiFiHook.InitSent | src/hooks/useWiFiELM327.ts:32-37 | The commands sent are all five, or the answered ones plus the one that timed out. |
| WiFiHook.SendGuard | src/hooks/useWiFiELM327.ts:100-102 | The guard refuses, with "Not connected to device", exactly when the hook it sees is unconnected or has no socket. |
| WiFiHook.WiFiHookState.constructor | src/hooks/useWiFiELM327.ts:13-17 | No device, no socket and nothing sent. |
| WiFiHook.WiFiHookState.ConnectDevice | src/hooks/useWiFiELM327.ts:20-88 | A created socket leaves the hook connecting. A constructor error is recorded and connecting ends. |
| WiFiHook.WiFiHookState.Exchange | src/hooks/useWiFiELM327.ts:104-117 | The normalised command is sent. A message answers it and every listener removes itself; a timeout rejects and leaves one more listener. |
| WiFiHook.WiFiHookState.SendCommand | src/hooks/useWiFiELM327.ts:99-118 | Refused unless connected with a socket; otherwise one exchange. |
| WiFiHook.WiFiHookState.OnOpenAsWritten | src/hooks/useWiFiELM327.ts:28-32 | Only the socket is stored. The guard of the captured `sendCommand`, on an unconnected hook without a socket, rejects "ATZ" with "Not connected to device"; nothing is sent and the rejection ends the handler. |
| WiFiHook.WiFiHookState.OnOpen | src/hooks/useWiFiELM327.ts:28-55 | The init commands go out in order up to the first timeout. If all are answered, the device is recorded and the hook connected. |
| WiFiHook.WiFiHookState.SendInit | src/hooks/useWiFiELM327.ts:32-37 | The commands sent are the init prefix of length `InitSent`, and the count answered is `Answered`. |
| WiFiHook.WiFiHookState.InitExchange | src/hooks/useWiFiELM327.ts:32-37 | An init command goes out unchanged; the exchange is answered iff a message came. |
| WiFiHook.WiFiHookState.OnError | src/hooks/useWiFiELM327.ts:57-66 | "Failed to connect to WiFi ELM327" is recorded and connecting ends. |
| WiFiHook.WiFiHookState.OnClose | src/hooks/useWiFiELM327.ts:68-76 | The flag, device and socket are cleared. |
| WiFiHook.WiFiHookState.Disconnect | src/hooks/useWiFiELM327.ts:90-97 | The socket, if any, is closed and dropped, and the hook is disconnected. |
| WiFiHook.FreshConnectAsWritten | src/hooks/useWiFiELM327.ts:28-37 | As written, a fresh connect whose socket opens stays connecting, never connects, records no device and sends nothing; the handler ends with the "not connected" rejection. |
| WiFiHook.FreshConnect | src/hooks/useWiFiELM327.ts:20-55 | Corrected, a fully answered fresh connect is connected to `DeviceAt(ip, port)`, having sent the five init commands in order. |
| ConnectionManager.TypeOf | src/hooks/useConnectionManager.ts:22-30 | Bluetooth iff classic is connected; WiFi iff only WiFi is; none iff neither is. |
| ConnectionManager.DeviceOf | src/hooks/useConnectionManager.ts:33 | The classic device is preferred; there is none only when both are missing. |
| ConnectionManager.ErrorOf | src/hooks/useConnectionManager.ts:34 | A non-empty classic error wins; otherwise the WiFi error. |
| ConnectionManager.DeviceLabel | src/hooks/useConnectionManager.ts:47-48 | A present device shows its name. |
| ConnectionManager.StatusText | src/hooks/useConnectionManager.ts:45-50 | "Disconnected" iff not connected. A connected Bluetooth or WiFi type is named in the text; a connected hook without a type reads "Connected". |
| ConnectionManager.StatusAfterSync | src/hooks/useConnectionManager.ts:22-50 | Once synced, "Disconnected" iff neither is connected. Bluetooth is named when the classic hook is connected, else WiFi, and never the bare "Connected". |
| ConnectionManager.StatusWhileTypeLags | src/hooks/useConnectionManager.ts:45-50 | Connected with no type yet reads "Connected". |
| ConnectionManager.Manager.constructor | src/hooks/useConnectionManager.ts:17-19 | It holds both hooks with no type yet. |
| ConnectionManager.Manager.SyncConnectionType | src/hooks/useConnectionManager.ts:22-30 | The type becomes `TypeOf` of the two flags, and is set iff connected. |
| ConnectionManager.Manager.IsConnected | src/hooks/useConnectionManager.ts:32 | Connected iff either hook is. |
| ConnectionManager.Manager.CurrentDevice | src/hooks/useConnectionManager.ts:33 | The classic hook's device wins, then the WiFi hook's; there is none only when neither has one. |
| ConnectionManager.Manager.Error | src/hooks/useConnectionManager.ts:34 | A non-empty classic error wins; otherwise the WiFi error. |
| ConnectionManager.Manager.ConnectionStatus | src/hooks/useConnectionManager.ts:45-50 | "Disconnected" iff neither hook is connected. A connected type is named; without a type the text is "Connected". |
| ConnectionManager.Manager.Disconnect | src/hooks/useConnectionManager.ts:36-43 | Classic first, then WiFi, each only if connected. Afterwards nothing is connected unless the serial plugin failed. |

## Left out

- Timing: the toasts, the `console` output and every pause are not modelled. This covers the 1000 ms pauses in the init sequences and the 300 ms and 1 s mock delays. Timer firings are events the environment may call at any moment.
- Random values are parameters. This covers the simulated telemetry in `useOBDData` and the mock replies' values. Floating-point rounding (`toFixed`, `Math.floor` of a real product) is not modelled: the rounded values are inputs and the numbers are exact reals.
- Rendering and React scheduling: state setters run in program order. Stale closures are modelled only where the findings below depend on them (the WiFi and classic hooks' init). `useOBDData`'s interval reads `data` from its closure; the model reads the current reading.
- Elm327Connection: the `useCallback` dependency arrays of `connectToBluetoothDevice` and `connectToWiFiDevice` (src/hooks/useELM327Connection.ts:153 and 197) are evaluated during render and read `disconnect`, a `const` declared only at line 202. As written, every render therefore throws a `ReferenceError` (the binding is in its temporal dead zone) before the hook returns. The model assumes `disconnect` is declared before line 114, as evidently intended.
- WiFiHook.Normalise: upper-casing maps only the ASCII letters a to z. JavaScript's `toUpperCase` also maps other letters ("é" to "É", and "ß" to "SS", which changes the length), so a command with non-ASCII letters goes on the wire differently.
- `useELM327Connection` on the web build: the WiFi transport resolves `connect` without running the native init. The session hook sees only the resolved device.
- A non-`Error` value thrown by a plugin has no `message`. It maps to the default text (`'Unknown error'`, or the hook's own fallback) through `ErrorText`. The WebSocket constructor's exact exception text is an input (`created`).
- `AlertSystem.AlertSystem.ShouldAlert`: each call reads the clock separately in the source. The model passes one `now` to all four checks of an update.
- WiFiTransport.WiFiElm327.Disconnect: the native socket's ready state after `close()` is not modelled. The socket is simply dropped, as the source sets the field to null.
- WiFiTransport.WiFiElm327.Connect: the native WebSocket constructor throwing synchronously is not modelled.
- Stale socket handlers of an earlier `connect` that fire after a second one are not modelled. These are the only route to the "send throws" branch of `executeCommand` on an open transport. That branch is still modelled and proved in `WiFiQueue.DispatchThrows`.
- WiFiHook.WiFiHookState.OnError: browsers follow `onerror` with `onclose`. The two are separate events in the model.
- WiFiHook.WiFiHookState.ConnectDevice: the port is a `nat`. A negative or fractional port, which the JavaScript accepts, is not modelled.
- Ports everywhere are `nat`. Their decimal text is what the template literals produce for non-negative integers.
- `ConnectionManager.Manager.CurrentDevice` and `ConnectionManager.Manager.Error` are read through `DeviceOf` and `ErrorOf`. A connected classic hook without a device shows the WiFi device or "undefined" (`DeviceLabel`).
- The Web Bluetooth picker and GATT calls of `useELM327`, the Bluetooth LE plugin and the serial plugin are parameters: their answers are inputs, and their calls are recorded.
- Device `lastConnected` dates of the WiFi transport are not modelled. `useELM327`'s `lastConnected` is an integer clock reading.
- Files outside these nine source files (UI components, permissions, native scan, Android activity) are not part of this model.

## Findings

| source | as written | input that shows it | evidently intended | confidence | as-written member | corrected member |
|---|---|---|---|---|---|---|
| src/hooks/useClassicBluetooth.ts:48-60 | `connectDevice` awaits the `sendCommand` (guarded at lines 107-109) from the render in which it was created; its dependencies are only `[devices, toast]`. On a hook that has never been connected, that closure sees `isConnected == false` even after the flag is set at line 53, so "ATZ" is rejected with "Not connected to a device." before anything is written. The catch records that message as the error while the flag stays true, and no device becomes current. | A fresh hook that scans and then calls `connectDevice(address)` with a link that comes up. | Send the four init commands on the new link, then record the listed device as current and the only connected entry. | not executed | ClassicBluetooth.FreshConnectAsWritten | ClassicBluetooth.FreshConnect |
| src/hooks/useWiFiELM327.ts:28-37 | The socket's `onopen` calls the `sendCommand` (guarded at lines 99-102) that `connectDevice` captured on the first render. That closure sees `isConnected == false` and `socket == null`, so the first init command "ATZ\r" is rejected with "Not connected to device". The rejection leaves the handler, so the device is never recorded and `isConnecting` stays true. | Any fresh `connectDevice(ip, port)` whose socket opens. | Send the five init commands on the socket just opened, then record the device and mark the hook connected. | not executed | WiFiHook.FreshConnectAsWritten | WiFiHook.FreshConnect |
