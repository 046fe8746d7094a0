# Device properties and property-dialog bookkeeping of dde-file-manager, in Dafny

This project models two parts of dde-file-manager and proves properties of the model.

**DeviceHelper** (`src/dfm-base/base/device/private/devicehelper.cpp`):
- how a dfm-mount block device becomes a flat `QVariantMap` of device properties (`loadBlockInfo`), including the three derived fields and the overlay of cached optical-disc usage;
- how a protocol device becomes such a map (`loadProtocolInfo`);
- the mount and eject policies decided from a map, a device or a device id;
- the translation of dfm-mount property identifiers into map keys;
- the write/read pair that caches optical usage in the application's data-persistence store.

**PropertyDialogUtil** (`src/plugins/common/core/dfmplugin-propertydialog/utils/propertydialogutil.cpp`):
- where property dialogs are placed on the screen (`getPropertyPos`, `getPerportyPos`), with C++ truncating division;
- the url-to-dialog map that `showFilePropertyDialog` fills and `closeFilePropertyDialog` empties, with the close-all dialog and its refresh timer;
- the totals `updateCloseIndicator` sums over the open dialogs.

Files, one module each:
- `wrappers.dfy`: `Option`.
- `strings.dfy`: the QString/QStringList operations used: join, contains, mid, ASCII lower-casing, decimal text.
- `variant.dfy`: `QVariant` as a datatype, with Qt's conversions and the 64-bit wrap-around made explicit.
- `device_property.dfy`: the map keys, dfm-mount properties and partition types as enumerations.
- `data_persistence.dfy`: the settings store as a two-level map held by a class.
- `device_helper.dfy`: DeviceHelper.
- `property_dialog_layout.dfy`: the placement arithmetic.
- `property_dialog.dfy`: the dialog bookkeeping.

A device handle is the record of values its accessors return. A null handle is `None`. Looking a device up by id through the dfm-mount monitor is a lookup in a map of devices. `loadBlockInfo` and `readOpticalInfo` are methods proved against the functions `BlockInfo`, `LoadedBlockInfo` and `OpticalOverlay`. The store they write and read is the `groups` field of `DataPersistence.Settings`. `PropertyDialogUtil` is a class whose fields are the dialog map, the next dialog identity, the close-all and timer flags, and the multi-file dialogs shown. Its loop over urls is the method `OpenDialogs`, which works on the map value.

The mount policy tests its conditions in a fixed order, and the order decides the reason reported. A device with a mount point is refused as already mounted only when its id is non-empty and it does not carry the ignore hint. Those two checks come first (`devicehelper.cpp:195-208`). `AlreadyMountedReason` states this order.

## Model

| member | source | states |
|---|---|---|
| DeviceHelper.LoadBlockInfoById | src/dfm-base/base/device/private/devicehelper.cpp:73-81 | an unknown id gives the empty map; a known id gives the map loadBlockInfo builds for that device |
| DeviceHelper.LoadBlockInfo | src/dfm-base/base/device/private/devicehelper.cpp:83-144 | a null device gives the empty map; otherwise the filled map, overlaid with the cached optical usage exactly when the optical-drive and optical flags are both set |
| DeviceHelper.LoadedBlockInfoKeys | src/dfm-base/base/device/private/devicehelper.cpp:94-143 | the map loadBlockInfo returns has exactly the 33 assigned keys, plus the five optical keys exactly when the device is an optical drive with optical media and the store holds a record for its tag |
| DeviceHelper.MountFields | src/dfm-base/base/device/private/devicehelper.cpp:95-119 | the id, ignore hint, mount point, filesystem and encryption entries are the device's path, hintIgnore, mountPoint, hasFileSystem and isEncrypted |
| DeviceHelper.EjectFields | src/dfm-base/base/device/private/devicehelper.cpp:106-112 | the removable, optical and ejectable entries are the device's own flags |
| DeviceHelper.NullStrFallback | src/dfm-base/base/device/private/devicehelper.cpp:87-90 | getNullStrIfNotValid always yields a valid variant: "" for an unreported property, the reported value itself when it is valid |
| DeviceHelper.BlockInfoBlockIdFallback | src/dfm-base/base/device/private/devicehelper.cpp:100-105 | UUID, filesystem version and read-only are read through the "" fallback |
| DeviceHelper.BlockInfoDriveFallback | src/dfm-base/base/device/private/devicehelper.cpp:104-126 | media, media removable, media available and connection bus are read through the "" fallback |
| DeviceHelper.BlockInfoCryptoFallback | src/dfm-base/base/device/private/devicehelper.cpp:120-125 | crypto backing device and cleartext device are read through the "" fallback |
| DeviceHelper.BlockInfoOpticalDrive | src/dfm-base/base/device/private/devicehelper.cpp:124 | the optical-drive flag holds if and only if some single media-compatibility entry contains "optical" |
| Strings.JoinContains | src/dfm-base/base/device/private/devicehelper.cpp:124 | a word without ',' or ' ' occurs in a list joined with ", " if and only if it occurs in one element |
| Strings.ContainsAroundSeparator | src/dfm-base/base/device/private/devicehelper.cpp:124 | such a word occurs in `a + ", " + b` if and only if it occurs in `a` or in `b` |
| DeviceHelper.BlockInfoDisplayName | src/dfm-base/base/device/private/devicehelper.cpp:128-131 | the display name is the label when the label is non-empty, else the size label of the total size |
| DeviceHelper.BlockInfoExtendedPartition | src/dfm-base/base/device/private/devicehelper.cpp:133-138 | the extended-partition flag holds if and only if the partition type is one of the five extended MBR types |
| DeviceHelper.OverlayAppliesToBlockInfo | src/dfm-base/base/device/private/devicehelper.cpp:140-141 | the optical cache is consulted if and only if the device is optical and some media-compatibility entry contains "optical" |
| DeviceHelper.LoadProtocolInfoById | src/dfm-base/base/device/private/devicehelper.cpp:146-154 | an unknown id gives the empty map; a known id gives loadProtocolInfo of that device |
| DeviceHelper.LoadProtocolInfo | src/dfm-base/base/device/private/devicehelper.cpp:156-173 | a null device gives the empty map; otherwise exactly the eight keys, the sizes as reported, and a free size in quint64 range congruent to total minus used, equal to it when used does not exceed total |
| DeviceHelper.CreateDevice | src/dfm-base/base/device/private/devicehelper.cpp:61-71 | the lookup finds a device if and only if the id is known |
| DeviceHelper.IsMountableBlockDevById | src/dfm-base/base/device/private/devicehelper.cpp:175-179 | an unknown id is refused with "block device is not valid!"; a known one is decided by the map policy on its loaded properties |
| DeviceHelper.IsMountableBlockDevice | src/dfm-base/base/device/private/devicehelper.cpp:181-189 | a null device is refused with its own reason; otherwise the map policy on the loaded map, which accepts if and only if path non-empty, not ignored, not mounted, has a filesystem and not encrypted |
| DeviceHelper.BlockInfoMountPolicy | src/dfm-base/base/device/private/devicehelper.cpp:187-188 | the mount policy on a loaded block device is read off the device's own fields |
| DeviceHelper.IsMountableBlockDev | src/dfm-base/base/device/private/devicehelper.cpp:191-220 | accepts if and only if all five conditions hold, leaving why untouched; otherwise why is the reason of the first failing check |
| DeviceHelper.MountBlockers | src/dfm-base/base/device/private/devicehelper.cpp:191-220 | the list of failing conditions, in test order, is empty if and only if the device is mountable |
| DeviceHelper.AlreadyMountedReason | src/dfm-base/base/device/private/devicehelper.cpp:205-208 | with a non-empty id and no ignore hint, a mount point is refused with a reason that embeds it |
| DeviceHelper.EmptyMapPolicy | src/dfm-base/base/device/private/devicehelper.cpp:191-248 | the empty map is refused for mounting with "block id is empty" and for ejecting with the fixed message |
| DeviceHelper.IsEjectableBlockDevById | src/dfm-base/base/device/private/devicehelper.cpp:222-226 | an unknown id is refused with "device is not valid"; a known one is decided by the map policy on its loaded properties |
| DeviceHelper.IsEjectableBlockDevice | src/dfm-base/base/device/private/devicehelper.cpp:228-235 | a null device is refused with its own reason; otherwise ejectable if and only if removable, or optical and ejectable |
| DeviceHelper.BlockInfoEjectPolicy | src/dfm-base/base/device/private/devicehelper.cpp:234 | the eject policy on a loaded block device is read off the device's own flags |
| DeviceHelper.IsEjectableBlockDev | src/dfm-base/base/device/private/devicehelper.cpp:237-248 | accepts if and only if removable, or optical and ejectable, leaving why untouched; otherwise why is the fixed message |
| DeviceHelper.PolicyCongruence | src/dfm-base/base/device/private/devicehelper.cpp:191-248 | both policies read only their eight keys: maps agreeing on them get equal decisions |
| DeviceHelper.OverlayKeepsPolicy | src/dfm-base/base/device/private/devicehelper.cpp:329-350 | readOpticalInfo never changes either policy decision |
| DeviceHelper.OverlayKeepsPolicyKeys | src/dfm-base/base/device/private/devicehelper.cpp:140-141 | the optical overlay inside loadBlockInfo leaves both decisions as they are on the freshly filled map |
| DeviceHelper.CastFromDFMMountProperty | src/dfm-base/base/device/private/devicehelper.cpp:284-310 | a key is returned if and only if the property is one of the eighteen listed; any other gives the "" default |
| DeviceHelper.CastInjective | src/dfm-base/base/device/private/devicehelper.cpp:289-308 | no two listed properties are translated to the same key |
| Strings.Mid | src/dfm-base/base/device/private/devicehelper.cpp:316 | mid(5) is the text after the first five characters, or "" for a shorter text |
| DeviceHelper.PersistedOptical | src/dfm-base/base/device/private/devicehelper.cpp:312-327 | the store gains the device's tag in "BurnAttribute" and changes at no other group and key |
| DeviceHelper.PersistentOpticalInfo | src/dfm-base/base/device/private/devicehelper.cpp:312-327 | the settings afterwards are the old store with the burn record of the map stored under its tag |
| DataPersistence.Stored | src/dfm-base/base/device/private/devicehelper.cpp:323 | setValue adds the key to the group, stores the value there, and leaves every other group and key alone |
| DataPersistence.Settings.SetValue | src/dfm-base/base/device/private/devicehelper.cpp:323 | the settings afterwards are the store with the value stored |
| DataPersistence.Lookup | src/dfm-base/base/device/private/devicehelper.cpp:335-336 | value(group, key) is the stored value for a present key and an invalid variant otherwise |
| DeviceHelper.OpticalOverlay | src/dfm-base/base/device/private/devicehelper.cpp:329-350 | every key outside the five optical keys keeps its value |
| DeviceHelper.ReadOpticalInfo | src/dfm-base/base/device/private/devicehelper.cpp:329-350 | the map afterwards is the optical overlay of the map against the current store |
| DeviceHelper.OverlayWithoutRecord | src/dfm-base/base/device/private/devicehelper.cpp:335 | without a record for the tag the map is unchanged |
| DeviceHelper.OverlayWithRecord | src/dfm-base/base/device/private/devicehelper.cpp:335-341 | with a record, exactly the five optical keys are added or overwritten, with the recorded sizes cast through quint64 to qint64, the media type as int and the write speed as a string list |
| DeviceHelper.OverlayFreeSize | src/dfm-base/base/device/private/devicehelper.cpp:339 | with a record, the free size is an integer in quint64 range congruent to total minus used |
| DeviceHelper.WrappedDifference | src/dfm-base/base/device/private/devicehelper.cpp:339 | the quint64 difference of the two sizes is congruent to their true difference |
| Variant.SignedRoundTrip | src/dfm-base/base/device/private/devicehelper.cpp:337-338 | a non-negative qint64 survives toULongLong and the cast back to qint64 |
| DeviceHelper.OpticalRoundTrip | src/dfm-base/base/device/private/devicehelper.cpp:316-341 | persisting a map and reading it into any map of the same device restores total, used, media type and write speed, makes free their quint64 difference (the plain difference when used does not exceed total), and keeps all other keys |
| PropertyDialogLayout.TDiv | src/plugins/common/core/dfmplugin-propertydialog/utils/propertydialogutil.cpp:230 | C++ int division: the quotient truncated toward zero, the remainder taking the sign of the dividend |
| PropertyDialogLayout.TRem | src/plugins/common/core/dfmplugin-propertydialog/utils/propertydialogutil.cpp:263 | C++ int remainder: quotient times divisor plus remainder is the dividend, with the remainder's sign and bound |
| PropertyDialogLayout.TruncatesTowardZero | src/plugins/common/core/dfmplugin-propertydialog/utils/propertydialogutil.cpp:230 | for every negative dividend and positive divisor: an exact division agrees with Euclidean division; otherwise the quotient is one more and the remainder one divisor less |
| PropertyDialogLayout.TruncatedIsEuclidean | src/plugins/common/core/dfmplugin-propertydialog/utils/propertydialogutil.cpp:261 | on a non-negative dividend and positive divisor, truncating and Euclidean division agree |
| PropertyDialogLayout.GetPropertyPos | src/plugins/common/core/dfmplugin-propertydialog/utils/propertydialogutil.cpp:210-235 | the dialog is centred: on each axis the margins before and after differ by at most one, the one before never the larger |
| PropertyDialogLayout.FullRowTest | src/plugins/common/core/dfmplugin-propertydialog/utils/propertydialogutil.cpp:270 | for a non-negative count the quotient test holds if and only if there is at least a full row |
| PropertyDialogLayout.DialogsWidth | src/plugins/common/core/dfmplugin-propertydialog/utils/propertydialogutil.cpp:269-274 | the centred block is a full row wide when count reaches the number per row, otherwise the width of count dialogs and their gaps |
| PropertyDialogLayout.RowStep | src/plugins/common/core/dfmplugin-propertydialog/utils/propertydialogutil.cpp:278-280 | adding a full row to the index keeps x and moves y down by exactly 70 |
| PropertyDialogLayout.ColumnStep | src/plugins/common/core/dfmplugin-propertydialog/utils/propertydialogutil.cpp:278-280 | within a row, the next index is exactly dialogWidth + 20 to the right at the same y |
| PropertyDialogLayout.GridIndex | src/plugins/common/core/dfmplugin-propertydialog/utils/propertydialogutil.cpp:278-280 | for a non-negative index and a positive number per row, the truncating quotient and remainder are the row and column |
| PropertyDialogLayout.GetPerportyPos | src/plugins/common/core/dfmplugin-propertydialog/utils/propertydialogutil.cpp:256-281 | for a non-negative index and a positive number per row, the dialog sits in row index / perRow and column index % perRow of the grid, with index == row * perRow + column: x is the left edge of the centred block plus column steps of dialogWidth + 20, y is top + 5 plus 70 per row |
| PropertyDialogLayout.WithinScreen | src/plugins/common/core/dfmplugin-propertydialog/utils/propertydialogutil.cpp:261-281 | every dialog of a non-empty list lies horizontally within the screen |
| PropertyDialog.IndexOf | src/plugins/common/core/dfmplugin-propertydialog/utils/propertydialogutil.cpp:77 | the first index holding the url, or -1 when it is absent |
| PropertyDialog.InsertWellFormed | src/plugins/common/core/dfmplugin-propertydialog/utils/propertydialogutil.cpp:79-82 | inserting a new dialog with the next identity keeps identities distinct and below the counter |
| PropertyDialog.OpenDialog | src/plugins/common/core/dfmplugin-propertydialog/utils/propertydialogutil.cpp:77-97 | one pass for one url: an open url leaves the map and the identity counter unchanged; otherwise exactly one dialog is added, with identity `next`, that url and the placement computed from its own size, and the counter advances by one |
| PropertyDialog.OpenDialogs | src/plugins/common/core/dfmplugin-propertydialog/utils/propertydialogutil.cpp:76-98 | afterwards every url is a key, no other key is added, open dialogs are kept as they were, and each new dialog has a fresh identity and the placement computed from its own size |
| PropertyDialog.PropertyDialogUtil.constructor | src/plugins/common/core/dfmplugin-propertydialog/utils/propertydialogutil.cpp:33-42 | no dialog is open, the close-all dialog is hidden and its timer stopped |
| PropertyDialog.PropertyDialogUtil.ShowFilePropertyDialog | src/plugins/common/core/dfmplugin-propertydialog/utils/propertydialogutil.cpp:72-110 | sixteen or more urls leave the map alone and add one multi-file dialog; fewer reuse open dialogs, create the rest and place each from its own size, and show the close-all dialog and start its timer exactly when there are at least two; the identity counter never goes back, so no identity is handed out twice |
| PropertyDialog.PropertyDialogUtil.CloseFilePropertyDialog | src/plugins/common/core/dfmplugin-propertydialog/utils/propertydialogutil.cpp:147-155 | removes exactly the url's dialog, if any, and hides the close-all dialog exactly when none is left |
| PropertyDialog.PropertyDialogUtil.CloseAllFilePropertyDialog | src/plugins/common/core/dfmplugin-propertydialog/utils/propertydialogutil.cpp:157-165 | every dialog is closed, so the map ends empty; the refresh timer is stopped and the close-all dialog hidden; identities and multi-file dialogs are untouched |
| PropertyDialog.PropertyDialogUtil.UpdateCloseIndicator | src/plugins/common/core/dfmplugin-propertydialog/utils/propertydialogutil.cpp:181-192 | the reported size and count are the sums of the open dialogs' file sizes and file counts |
| PropertyDialog.TotalRemove | src/plugins/common/core/dfmplugin-propertydialog/utils/propertydialogutil.cpp:186-189 | the sum over the dialogs does not depend on the order the map yields them |
| PropertyDialog.CloseReducesTotals | src/plugins/common/core/dfmplugin-propertydialog/utils/propertydialogutil.cpp:181-192 | closing a dialog takes exactly its own size and count out of the totals |

## Left out

- createDevice, createBlockDevice and createProtocolDevice use the dfm-mount monitor registry, a foreign library, including its null-monitor assertion and `qobject_cast`. They become a lookup in a map of already-read devices.
- askForStopScanning and openFileManagerToDevice are modal dialogs, the virus-scanner controller, process launching and desktop services: UI and process I/O.
- The store's `sync()` and `reload()` write the store to disk and re-read it. They are I/O and are not modelled. `reload()` is assumed to bring back exactly what was stored.
- `DeviceUtils::convertSizeToLabel` is not part of this model. It is the function parameter `sizeLabel`, about which nothing is assumed.
- The qDebug logging is left out.
- The key strings of `GlobalServerDefines::DeviceProperty` come from a header that is not part of this model. The keys are an enumeration, so only their distinctness is modelled. The five store keys of the optical cache are the strings defined at `devicehelper.cpp:44-48`, including the spelling "BurnWriteSpeede".
- DeviceHelper.LoadProtocolInfo: the accessors `sizeTotal()` and `sizeUsage()` of dfm-mount's protocol device are declared outside this model and are taken to return quint64. The free size at `devicehelper.cpp:167` is therefore their unsigned difference: it equals `sizeTotal − sizeUsage` when the usage does not exceed the total, and otherwise wraps around modulo 2^64 (total 1 and usage 2 give 2^64 − 1). Under a signed reading it would be the exact difference −1.
- DeviceHelper.BlockInfo: the block device's `sizeTotal()` is taken to be quint64 as well. It is stored as an integer and handed to the size label, with no arithmetic on it.
- `loadBlockInfo` assigns the 33 entries one after another. `BlockInfo` builds the same map in one step. All keys are distinct, so the order has no visible effect on the entries. The entries read back are the label, for the display name, which is taken from the device, and the optical-drive and optical flags in the overlay guard at devicehelper.cpp:140. That guard runs after all 33 assignments, so it sees their final values.
- QVariant conversions are modelled for the kinds of value the device maps hold: invalid, bool, integer, string, string list and map. String-to-number conversion handles unsigned decimal text only, and `toLower` is ASCII-only.
- In the dialog code, widget creation, show, move, raise and activateWindow, createControlView with its extension views, signal connections, the QTimer and the screen lookup through `QCursor::pos()` are left out. The screen's geometry is a parameter. A dialog is represented by its identity, url and the position it was moved to.
- showPropertyDialog, createCustomizeView, createView, insertExtendedControlFileProperty and addExtendedControlFileProperty call into a manager that is not part of this model.
- CloseAllFilePropertyDialog: closing each dialog is modelled as closeFilePropertyDialog of its url, delivered at once. This assumes each dialog emits `closed` with its url when closed. The widget's close handling is not part of this model.
- A QUrl is its normalised text, so QUrl's component-wise comparison becomes equality of text.
- A partition type outside the five extended MBR types is `OtherPartition` with its code. That code is never one of the five extended types, which have their own constructors.
- getFileSize and getFileCount of a dialog are function parameters of UpdateCloseIndicator.
- The unused `row` and `dialogHeight` of getPerportyPos are not computed.
- The Q_ASSERT that the number per row is non-zero is a precondition, `LayoutDefined`.
- UpdateCloseIndicator: does not model qint64/int overflow of the sums; the totals are unbounded integers.
- PropertyDialogLayout.GetPerportyPos: does not model 32-bit int overflow of the layout arithmetic; screen and dialog sizes are far below it.
- PropertyDialog.OpenDialogs: the size of each new dialog is a function of its url, `dialogWidth(u)` and `dialogHeight(u)`. How createControlView's extension views give a dialog that size is not modelled. RowStep and ColumnStep give the exact spacing between dialogs of equal width.
- PropertyDialog.PropertyDialogUtil.ShowFilePropertyDialog: the screen is looked up once per call, so all dialogs of one call are placed on the same screen. The source looks the cursor's screen up again for each dialog.
- PropertyDialogLayout.WithinScreen: also requires a positive screen width and dialog width, the ranges in which the placement is meant to fit.
