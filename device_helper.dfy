/**
 * DeviceHelper: turning dfm-mount block and protocol devices into flat
 * property maps, the mount and eject policy decided from such a map, the
 * translation of dfm-mount property identifiers into map keys, and the cache
 * of optical-disc usage kept in the data-persistence store.
 *
 * A device handle is modelled by the values its accessors return; a null
 * handle is `None`. Looking a device up by id through the dfm-mount monitor
 * is modelled by a map from ids to devices.
 */
module DeviceHelper {
  import opened Wrappers
  import opened Strings
  import opened Variant
  import opened DeviceProperty
  import opened DataPersistence

  // group and keys of the optical usage cache in the persistence store
  const kBurnAttribute := "BurnAttribute"
  const kBurnTotalSize := "BurnTotalSize"
  const kBurnUsedSize := "BurnUsedSize"
  const kBurnMediaType := "BurnMediaType"
  const kBurnWriteSpeed := "BurnWriteSpeede"

  // the reasons the policy reports
  const kBlockDeviceNotValid := "block device is not valid!"
  const kBlockIdEmpty := "block id is empty"
  const kDeviceIgnored := "device is ignored"
  const kAlreadyMountedAt := "device is already mounted at: "
  const kNoFileSystem := "device do not have a filesystem interface"
  const kEncrypted := "device is encrypted"
  const kDeviceNotValid := "device is not valid"
  const kNotEjectable := "device is not removable or is not ejectable optical item"

  /** A block device as the accessors of dfm-mount's DBlockDevice report it. */
  datatype BlockDevice = BlockDevice(
    path: string,
    mountPoint: string,
    fileSystem: string,
    sizeTotal: U64,
    device: string,
    idLabel: string,
    removable: bool,
    optical: bool,
    opticalBlank: bool,
    canPowerOff: bool,
    ejectable: bool,
    isEncrypted: bool,
    isLoopDevice: bool,
    hasFileSystem: bool,
    hasPartitionTable: bool,
    hasPartition: bool,
    hintSystem: bool,
    hintIgnore: bool,
    drive: string,
    mountPoints: seq<string>,
    mediaCompatibility: seq<string>,
    partitionEType: PartitionType,
    /** what getProperty returns for each property the device reports */
    reported: map<Property, Value>)

  /** A protocol (network or gvfs) device as dfm-mount's DProtocolDevice reports it. */
  datatype ProtocolDevice = ProtocolDevice(
    path: string,
    fileSystem: string,
    sizeTotal: U64,
    sizeUsage: U64,
    mountPoint: string,
    displayName: string,
    deviceIcons: seq<string>)

  /** The outcome of a policy check: the boolean result and the `why` out-parameter afterwards. */
  datatype Decision = Decision(ok: bool, why: string)

  /** DBlockDevice::getProperty: an invalid variant for an unreported property. */
  function GetProperty(d: BlockDevice, p: Property): Value
  {
    if p in d.reported then d.reported[p] else Invalid
  }

  /** The getNullStrIfNotValid lambda of loadBlockInfo. */
  function NullStrIfNotValid(d: BlockDevice, p: Property): Value
  {
    var ret := GetProperty(d, p);
    if IsValid(ret) then ret else Str("")
  }

  /** The five MBR partition types loadBlockInfo reports as extended partitions. */
  const ExtendedPartitionTypes: set<PartitionType> :=
    {MbrWin95_Extended_LBA, MbrLinux_extended, MbrExtended, MbrDRDOS_sec_extend, MbrMultiuser_DOS_extend}

  /** The keys loadBlockInfo fills for every non-null block device. */
  const BlockInfoKeys: set<Key> :=
    {kId, kMountPoint, kFileSystem, kSizeTotal, kUUID, kFsVersion, kDevice, kIdLabel, kMedia,
     kReadOnly, kRemovable, kMediaRemovable, kOptical, kOpticalBlank, kMediaAvailable,
     kCanPowerOff, kEjectable, kIsEncrypted, kIsLoopDevice, kHasFileSystem, kHasPartitionTable,
     kHasPartition, kHintSystem, kHintIgnore, kCryptoBackingDevice, kDrive, kMountPoints,
     kMediaCompatibility, kOpticalDrive, kCleartextDevice, kConnectionBus, kDisplayName,
     kHasExtendedPatition}

  /** The keys the optical usage cache overwrites. */
  const OpticalKeys: set<Key> := {kSizeTotal, kSizeUsed, kSizeFree, kOpticalMediaType, kOpticalWriteSpeed}

  /** The extended-partition test of loadBlockInfo. */
  function IsExtendedPartition(t: PartitionType): bool
  {
    t == MbrWin95_Extended_LBA
    || t == MbrLinux_extended
    || t == MbrExtended
    || t == MbrDRDOS_sec_extend
    || t == MbrMultiuser_DOS_extend
  }

  /** The optical-drive test of loadBlockInfo: "optical" in the joined media compatibility list. */
  function IsOpticalDrive(compatibility: seq<string>): bool
  {
    Contains(Join(compatibility, ", "), "optical")
  }

  /** The display name loadBlockInfo derives: the label, or a size label when there is none. */
  function DisplayName(d: BlockDevice, sizeLabel: U64 -> string): string
  {
    if ToString(Str(d.idLabel)) == "" then sizeLabel(d.sizeTotal) else d.idLabel
  }

  /** The value loadBlockInfo stores under key `k` for block device `d`. */
  function BlockField(d: BlockDevice, sizeLabel: U64 -> string, k: Key): Value
  {
    match k
    case kId => Str(d.path)
    case kMountPoint => Str(d.mountPoint)
    case kFileSystem => Str(d.fileSystem)
    case kSizeTotal => Int(d.sizeTotal)
    case kUUID => NullStrIfNotValid(d, BlockIDUUID)
    case kFsVersion => NullStrIfNotValid(d, BlockIDVersion)
    case kDevice => Str(d.device)
    case kIdLabel => Str(d.idLabel)
    case kMedia => NullStrIfNotValid(d, DriveMedia)
    case kReadOnly => NullStrIfNotValid(d, BlockReadOnly)
    case kRemovable => Bool(d.removable)
    case kMediaRemovable => NullStrIfNotValid(d, DriveMediaRemovable)
    case kOptical => Bool(d.optical)
    case kOpticalBlank => Bool(d.opticalBlank)
    case kMediaAvailable => NullStrIfNotValid(d, DriveMediaAvailable)
    case kCanPowerOff => Bool(d.canPowerOff)
    case kEjectable => Bool(d.ejectable)
    case kIsEncrypted => Bool(d.isEncrypted)
    case kIsLoopDevice => Bool(d.isLoopDevice)
    case kHasFileSystem => Bool(d.hasFileSystem)
    case kHasPartitionTable => Bool(d.hasPartitionTable)
    case kHasPartition => Bool(d.hasPartition)
    case kHintSystem => Bool(d.hintSystem)
    case kHintIgnore => Bool(d.hintIgnore)
    case kCryptoBackingDevice => NullStrIfNotValid(d, BlockCryptoBackingDevice)
    case kDrive => Str(d.drive)
    case kMountPoints => StrList(d.mountPoints)
    case kMediaCompatibility => StrList(d.mediaCompatibility)
    case kOpticalDrive => Bool(IsOpticalDrive(d.mediaCompatibility))
    case kCleartextDevice => NullStrIfNotValid(d, EncryptedCleartextDevice)
    case kConnectionBus => NullStrIfNotValid(d, DriveConnectionBus)
    case kDisplayName => Str(DisplayName(d, sizeLabel))
    case kHasExtendedPatition => Bool(IsExtendedPartition(d.partitionEType))
    case _ => Invalid
  }

  /**
   * The map loadBlockInfo builds for a block device before the optical cache
   * is consulted. `sizeLabel` stands for DeviceUtils::convertSizeToLabel.
   */
  function BlockInfo(d: BlockDevice, sizeLabel: U64 -> string): DeviceMap
  {
    map k | k in BlockInfoKeys :: BlockField(d, sizeLabel, k)
  }

  /** A key is present in BlockInfo exactly when it is one of the keys loadBlockInfo fills. */
  lemma BlockInfoHasKey(d: BlockDevice, sizeLabel: U64 -> string, k: Key)
    ensures k in BlockInfo(d, sizeLabel) <==> k in BlockInfoKeys
  {
  }

  /** The value BlockInfo holds under one of its keys. */
  lemma BlockInfoField(d: BlockDevice, sizeLabel: U64 -> string, k: Key)
    requires k in BlockInfoKeys
    ensures k in BlockInfo(d, sizeLabel) && BlockInfo(d, sizeLabel)[k] == BlockField(d, sizeLabel, k)
  {
  }

  /** loadBlockInfo fills exactly the keys of BlockInfoKeys. */
  lemma BlockInfoKeySet(d: BlockDevice, sizeLabel: U64 -> string)
    ensures BlockInfo(d, sizeLabel).Keys == BlockInfoKeys
  {
    forall k
      ensures k in BlockInfo(d, sizeLabel) <==> k in BlockInfoKeys
    {
      BlockInfoHasKey(d, sizeLabel, k);
    }
  }

  /** The display name loadBlockInfo stores is the label when there is one, else the size label. */
  lemma BlockInfoDisplayName(d: BlockDevice, sizeLabel: U64 -> string)
    ensures BlockInfo(d, sizeLabel)[kDisplayName]
         == Str(if d.idLabel != "" then d.idLabel else sizeLabel(d.sizeTotal))
  {
  }

  /** The extended-partition flag holds exactly for the five extended MBR types. */
  lemma BlockInfoExtendedPartition(d: BlockDevice, sizeLabel: U64 -> string)
    ensures BlockInfo(d, sizeLabel)[kHasExtendedPatition] == Bool(d.partitionEType in ExtendedPartitionTypes)
  {
  }

  /** The optical-drive flag holds exactly when some media-compatibility entry contains "optical". */
  lemma BlockInfoOpticalDrive(d: BlockDevice, sizeLabel: U64 -> string)
    ensures BlockInfo(d, sizeLabel)[kOpticalDrive]
         == Bool(exists i :: 0 <= i < |d.mediaCompatibility| && Contains(d.mediaCompatibility[i], "optical"))
  {
    assert AvoidsSeparator("optical");
    JoinContains(d.mediaCompatibility, "optical");
  }

  /** The block-id properties read through getNullStrIfNotValid. */
  lemma BlockInfoBlockIdFallback(d: BlockDevice, sizeLabel: U64 -> string)
    ensures var r := BlockInfo(d, sizeLabel);
      && r[kUUID] == NullStrIfNotValid(d, BlockIDUUID)
      && r[kFsVersion] == NullStrIfNotValid(d, BlockIDVersion)
      && r[kReadOnly] == NullStrIfNotValid(d, BlockReadOnly)
  {
    BlockInfoField(d, sizeLabel, kUUID);
    BlockInfoField(d, sizeLabel, kFsVersion);
    BlockInfoField(d, sizeLabel, kReadOnly);
  }

  /** The drive properties read through getNullStrIfNotValid. */
  lemma BlockInfoDriveFallback(d: BlockDevice, sizeLabel: U64 -> string)
    ensures var r := BlockInfo(d, sizeLabel);
      && r[kMedia] == NullStrIfNotValid(d, DriveMedia)
      && r[kMediaRemovable] == NullStrIfNotValid(d, DriveMediaRemovable)
      && r[kMediaAvailable] == NullStrIfNotValid(d, DriveMediaAvailable)
      && r[kConnectionBus] == NullStrIfNotValid(d, DriveConnectionBus)
  {
    BlockInfoField(d, sizeLabel, kMedia);
    BlockInfoField(d, sizeLabel, kMediaRemovable);
    BlockInfoField(d, sizeLabel, kMediaAvailable);
    BlockInfoField(d, sizeLabel, kConnectionBus);
  }

  /** The encryption properties read through getNullStrIfNotValid. */
  lemma BlockInfoCryptoFallback(d: BlockDevice, sizeLabel: U64 -> string)
    ensures var r := BlockInfo(d, sizeLabel);
      && r[kCryptoBackingDevice] == NullStrIfNotValid(d, BlockCryptoBackingDevice)
      && r[kCleartextDevice] == NullStrIfNotValid(d, EncryptedCleartextDevice)
  {
    BlockInfoField(d, sizeLabel, kCryptoBackingDevice);
    BlockInfoField(d, sizeLabel, kCleartextDevice);
  }

  /**
   * getNullStrIfNotValid: an unreported or invalid property reads as "",
   * a valid one as itself.
   */
  lemma NullStrFallback(d: BlockDevice, p: Property)
    ensures IsValid(NullStrIfNotValid(d, p))
    ensures p !in d.reported ==> NullStrIfNotValid(d, p) == Str("")
    ensures IsValid(GetProperty(d, p)) ==> NullStrIfNotValid(d, p) == GetProperty(d, p)
  {
  }


  // ---------------------------------------------------------------------
  // Optical usage cache

  /** The store key of a device map: its device path without the leading "/dev/". */
  function OpticalTag(datas: DeviceMap): string
  {
    Mid(ToString(Get(datas, kDevice)), 5)
  }

  /** The record persistentOpticalInfo writes for a device map. */
  function BurnRecord(datas: DeviceMap): map<string, Value>
  {
    map[kBurnTotalSize := Get(datas, kSizeTotal),
        kBurnUsedSize := Get(datas, kSizeUsed),
        kBurnMediaType := Get(datas, kOpticalMediaType),
        kBurnWriteSpeed := Get(datas, kOpticalWriteSpeed)]
  }

  /** The store after persistentOpticalInfo(datas). */
  function PersistedOptical(s: Store, datas: DeviceMap): (r: Store)
    ensures Keys(r, kBurnAttribute) == Keys(s, kBurnAttribute) + {OpticalTag(datas)}
    ensures forall g, k :: (g != kBurnAttribute || k != OpticalTag(datas)) ==> Lookup(r, g, k) == Lookup(s, g, k)
  {
    Stored(s, kBurnAttribute, OpticalTag(datas), VMap(BurnRecord(datas)))
  }

  /**
   * The device map after readOpticalInfo against store `s`: when the store
   * holds a record for the device's tag, the sizes, media type and write
   * speed are replaced by the recorded ones (the free size recomputed as a
   * quint64 difference); otherwise the map is unchanged.
   */
  function OpticalOverlay(datas: DeviceMap, s: Store): (r: DeviceMap)
    ensures forall k :: k in datas && k !in OpticalKeys ==> k in r && r[k] == datas[k]
  {
    var tag := OpticalTag(datas);
    if tag in Keys(s, kBurnAttribute) then
      var info := ToMap(Lookup(s, kBurnAttribute, tag));
      var total := ToI64(ToULongLong(Get(info, kBurnTotalSize)));
      var used := ToI64(ToULongLong(Get(info, kBurnUsedSize)));
      datas[kSizeTotal := Int(total)]
           [kSizeUsed := Int(used)]
           [kSizeFree := Int(ToU64(ToU64(total) - ToU64(used)))]
           [kOpticalMediaType := Int(ToInt(Get(info, kBurnMediaType)))]
           [kOpticalWriteSpeed := StrList(ToStringList(Get(info, kBurnWriteSpeed)))]
    else
      datas
  }

  /** Without a record for the device's tag, readOpticalInfo leaves the map unchanged. */
  lemma OverlayWithoutRecord(datas: DeviceMap, s: Store)
    requires OpticalTag(datas) !in Keys(s, kBurnAttribute)
    ensures OpticalOverlay(datas, s) == datas
  {
  }

  /**
   * With a record, readOpticalInfo adds or overwrites exactly the five
   * optical keys: the total and used sizes converted through quint64 to
   * qint64, the free size as their quint64 difference, the media type as an
   * int and the write speed as a string list.
   */
  lemma OverlayWithRecord(datas: DeviceMap, s: Store)
    requires OpticalTag(datas) in Keys(s, kBurnAttribute)
    ensures var r := OpticalOverlay(datas, s);
      var info := ToMap(Lookup(s, kBurnAttribute, OpticalTag(datas)));
      && r.Keys == datas.Keys + OpticalKeys
      && r[kSizeTotal] == Int(ToI64(ToULongLong(Get(info, kBurnTotalSize))))
      && r[kSizeUsed] == Int(ToI64(ToULongLong(Get(info, kBurnUsedSize))))
      && r[kOpticalMediaType] == Int(ToInt(Get(info, kBurnMediaType)))
      && r[kOpticalWriteSpeed] == StrList(ToStringList(Get(info, kBurnWriteSpeed)))
  {
  }

  /** With a record, the free size readOpticalInfo stores is the quint64 difference of total and used. */
  lemma OverlayFreeSize(datas: DeviceMap, s: Store)
    requires OpticalTag(datas) in Keys(s, kBurnAttribute)
    ensures var r := OpticalOverlay(datas, s);
      && kSizeTotal in r && kSizeUsed in r && kSizeFree in r
      && r[kSizeTotal].Int? && r[kSizeUsed].Int? && r[kSizeFree].Int?
      && 0 <= r[kSizeFree].i < U64Modulus
      && (r[kSizeFree].i - (r[kSizeTotal].i - r[kSizeUsed].i)) % U64Modulus == 0
  {
    var info := ToMap(Lookup(s, kBurnAttribute, OpticalTag(datas)));
    var total := ToI64(ToULongLong(Get(info, kBurnTotalSize)));
    var used := ToI64(ToULongLong(Get(info, kBurnUsedSize)));
    WrappedDifference(total, used);
  }

  /** The quint64 difference of two sizes is congruent to their true difference. */
  lemma WrappedDifference(total: int, used: int)
    ensures (ToU64(ToU64(total) - ToU64(used)) - (total - used)) % U64Modulus == 0
  {
    var a, b := ToU64(total), ToU64(used);
    var d := ToU64(a - b);
    assert a == total + U64Modulus * ((a - total) / U64Modulus);
    assert b == used + U64Modulus * ((b - used) / U64Modulus);
    assert d == a - b + U64Modulus * ((d - (a - b)) / U64Modulus);
  }

  /**
   * DeviceHelper::persistentOpticalInfo: records the sizes, media type and
   * write speed of `datas` under its tag in the "BurnAttribute" group.
   */
  method PersistentOpticalInfo(settings: Settings, datas: DeviceMap)
    modifies settings
    ensures settings.groups == PersistedOptical(old(settings.groups), datas)
  {
    var info: map<string, Value> := map[];
    var tag := Mid(ToString(Get(datas, kDevice)), 5);
    info := info[kBurnTotalSize := Get(datas, kSizeTotal)];
    info := info[kBurnUsedSize := Get(datas, kSizeUsed)];
    info := info[kBurnMediaType := Get(datas, kOpticalMediaType)];
    info := info[kBurnWriteSpeed := Get(datas, kOpticalWriteSpeed)];
    settings.SetValue(kBurnAttribute, tag, VMap(info));
  }

  /**
   * DeviceHelper::readOpticalInfo: `datas` is updated in place in the
   * source; here the updated map is returned.
   */
  method ReadOpticalInfo(settings: Settings, datas: DeviceMap) returns (r: DeviceMap)
    ensures r == OpticalOverlay(datas, settings.groups)
  {
    r := datas;
    var tag := Mid(ToString(Get(r, kDevice)), 5);
    if tag in Keys(settings.groups, kBurnAttribute) {
      var info := ToMap(Lookup(settings.groups, kBurnAttribute, tag));
      r := r[kSizeTotal := Int(ToI64(ToULongLong(Get(info, kBurnTotalSize))))];
      r := r[kSizeUsed := Int(ToI64(ToULongLong(Get(info, kBurnUsedSize))))];
      r := r[kSizeFree := Int(ToU64(ToULongLong(r[kSizeTotal]) - ToULongLong(r[kSizeUsed])))];
      r := r[kOpticalMediaType := Int(ToInt(Get(info, kBurnMediaType)))];
      r := r[kOpticalWriteSpeed := StrList(ToStringList(Get(info, kBurnWriteSpeed)))];
    }
  }

  /**
   * Persisting a device's optical usage and reading it back into any map of
   * the same device restores its total and used sizes (when they are
   * non-negative qint64 values), its media type and write speed, and makes
   * the free size their difference.
   */
  lemma OpticalRoundTrip(s: Store, d: DeviceMap, e: DeviceMap, total: int, used: int, mediaType: int, speed: seq<string>)
    requires OpticalTag(e) == OpticalTag(d)
    requires Get(d, kSizeTotal) == Int(total) && 0 <= total < I64Bound
    requires Get(d, kSizeUsed) == Int(used) && 0 <= used < I64Bound
    requires Get(d, kOpticalMediaType) == Int(mediaType) && I32Min <= mediaType < I32Bound
    requires Get(d, kOpticalWriteSpeed) == StrList(speed)
    ensures var r := OpticalOverlay(e, PersistedOptical(s, d));
      && r[kSizeTotal] == Int(total)
      && r[kSizeUsed] == Int(used)
      && r[kSizeFree] == Int(ToU64(total - used))
      && (used <= total ==> r[kSizeFree] == Int(total - used))
      && r[kOpticalMediaType] == Int(mediaType)
      && r[kOpticalWriteSpeed] == StrList(speed)
      && forall k :: k in e && k !in OpticalKeys ==> k in r && r[k] == e[k]
  {
    var s' := PersistedOptical(s, d);
    var info := ToMap(Lookup(s', kBurnAttribute, OpticalTag(e)));
    assert info == BurnRecord(d);
    SignedRoundTrip(total);
    SignedRoundTrip(used);
  }

  // ---------------------------------------------------------------------
  // Loading property maps

  /** Whether loadBlockInfo consults the optical cache for the map it built. */
  predicate OverlayApplies(datas: DeviceMap)
  {
    ToBool(Get(datas, kOpticalDrive)) && ToBool(Get(datas, kOptical))
  }

  /** The cache is consulted exactly for an optical drive holding optical media. */
  lemma OverlayAppliesToBlockInfo(d: BlockDevice, sizeLabel: U64 -> string)
    ensures OverlayApplies(BlockInfo(d, sizeLabel))
        <==> d.optical && exists i :: 0 <= i < |d.mediaCompatibility| && Contains(d.mediaCompatibility[i], "optical")
  {
    BlockInfoOpticalDrive(d, sizeLabel);
  }

  /** The complete map loadBlockInfo returns for a non-null block device. */
  function LoadedBlockInfo(d: BlockDevice, sizeLabel: U64 -> string, s: Store): DeviceMap
  {
    var base := BlockInfo(d, sizeLabel);
    if OverlayApplies(base) then OpticalOverlay(base, s) else base
  }

  /**
   * The keys of the map loadBlockInfo returns: the 33 keys it assigns, and
   * the five optical keys exactly when the cache is consulted and holds a
   * record for the device.
   */
  lemma LoadedBlockInfoKeys(d: BlockDevice, sizeLabel: U64 -> string, s: Store)
    ensures var base := BlockInfo(d, sizeLabel);
      LoadedBlockInfo(d, sizeLabel, s).Keys
        == BlockInfoKeys + (if OverlayApplies(base) && OpticalTag(base) in Keys(s, kBurnAttribute)
                            then OpticalKeys else {})
  {
    var base := BlockInfo(d, sizeLabel);
    BlockInfoKeySet(d, sizeLabel);
    if OverlayApplies(base) {
      if OpticalTag(base) in Keys(s, kBurnAttribute) {
        OverlayWithRecord(base, s);
      } else {
        OverlayWithoutRecord(base, s);
      }
    }
  }

  /**
   * DeviceHelper::loadBlockInfo(const BlockDevPtr &): an empty map for a
   * null device; otherwise the map filled field by field, overlaid with the
   * cached optical usage for an optical drive holding optical media.
   */
  method LoadBlockInfo(dev: Option<BlockDevice>, settings: Settings, sizeLabel: U64 -> string)
    returns (datas: DeviceMap)
    ensures dev.None? ==> datas == map[]
    ensures dev.Some? ==> datas == LoadedBlockInfo(dev.value, sizeLabel, settings.groups)
  {
    if dev.None? {
      return map[];
    }
    datas := BlockInfo(dev.value, sizeLabel);
    if ToBool(datas[kOpticalDrive]) && ToBool(datas[kOptical]) {
      datas := ReadOpticalInfo(settings, datas);
    }
  }

  /** The device the dfm-mount monitor hands out for `id`, or null. */
  function CreateDevice<D>(devices: map<string, D>, id: string): (r: Option<D>)
    ensures r.Some? <==> id in devices
  {
    if id in devices then Some(devices[id]) else None
  }

  /** DeviceHelper::loadBlockInfo(const QString &id): an empty map when no such device exists. */
  method LoadBlockInfoById(devices: map<string, BlockDevice>, id: string, settings: Settings, sizeLabel: U64 -> string)
    returns (datas: DeviceMap)
    ensures id !in devices ==> datas == map[]
    ensures id in devices ==> datas == LoadedBlockInfo(devices[id], sizeLabel, settings.groups)
  {
    var dev := CreateDevice(devices, id);
    if dev.None? {
      return map[];
    }
    datas := LoadBlockInfo(dev, settings, sizeLabel);
  }

  /** The keys loadProtocolInfo fills. */
  const ProtocolInfoKeys: set<Key> :=
    {kId, kFileSystem, kSizeTotal, kSizeUsed, kSizeFree, kMountPoint, kDisplayName, kDeviceIcon}

  /**
   * DeviceHelper::loadProtocolInfo(const ProtocolDevPtr &): an empty map for
   * a null device; otherwise eight fields, the free size being the quint64
   * difference of the total and used sizes.
   */
  function LoadProtocolInfo(dev: Option<ProtocolDevice>): (r: DeviceMap)
    ensures dev.None? ==> r == map[]
    ensures dev.Some? ==> r.Keys == ProtocolInfoKeys
    ensures dev.Some? ==>
      && r[kSizeTotal] == Int(dev.value.sizeTotal)
      && r[kSizeUsed] == Int(dev.value.sizeUsage)
      && r[kSizeFree].Int? && 0 <= r[kSizeFree].i < U64Modulus
      && (r[kSizeFree].i + dev.value.sizeUsage - dev.value.sizeTotal) % U64Modulus == 0
    ensures dev.Some? && dev.value.sizeUsage <= dev.value.sizeTotal ==>
      r[kSizeFree] == Int(dev.value.sizeTotal - dev.value.sizeUsage)
  {
    match dev
    case None => map[]
    case Some(p) =>
      map[kId := Str(p.path),
          kFileSystem := Str(p.fileSystem),
          kSizeTotal := Int(p.sizeTotal),
          kSizeUsed := Int(p.sizeUsage),
          kSizeFree := Int(ToU64(p.sizeTotal - p.sizeUsage)),
          kMountPoint := Str(p.mountPoint),
          kDisplayName := Str(p.displayName),
          kDeviceIcon := StrList(p.deviceIcons)]
  }

  /** DeviceHelper::loadProtocolInfo(const QString &id): an empty map when no such device exists. */
  function LoadProtocolInfoById(devices: map<string, ProtocolDevice>, id: string): (r: DeviceMap)
    ensures id !in devices ==> r == map[]
    ensures id in devices ==> r == LoadProtocolInfo(Some(devices[id]))
  {
    LoadProtocolInfo(CreateDevice(devices, id))
  }

  // ---------------------------------------------------------------------
  // Mount and eject policy

  /** The five conditions under which a block device may be mounted. */
  predicate MountableInfo(infos: DeviceMap)
  {
    && ToString(Get(infos, kId)) != ""
    && !ToBool(Get(infos, kHintIgnore))
    && ToString(Get(infos, kMountPoint)) == ""
    && ToBool(Get(infos, kHasFileSystem))
    && !ToBool(Get(infos, kIsEncrypted))
  }

  /**
   * Every reason a block device cannot be mounted, in the order the policy
   * tests them; the policy reports the first.
   */
  function MountBlockers(infos: DeviceMap): (r: seq<string>)
    ensures r == [] <==> MountableInfo(infos)
  {
    (if ToString(Get(infos, kId)) == "" then [kBlockIdEmpty] else [])
    + (if ToBool(Get(infos, kHintIgnore)) then [kDeviceIgnored] else [])
    + (if ToString(Get(infos, kMountPoint)) != ""
       then [kAlreadyMountedAt + ToString(Get(infos, kMountPoint))] else [])
    + (if !ToBool(Get(infos, kHasFileSystem)) then [kNoFileSystem] else [])
    + (if ToBool(Get(infos, kIsEncrypted)) then [kEncrypted] else [])
  }

  /**
   * DeviceHelper::isMountableBlockDev(const QVariantMap &, QString &why):
   * true exactly when all five conditions hold, leaving `why` untouched;
   * otherwise false with the reason of the first failing check.
   */
  function IsMountableBlockDev(infos: DeviceMap, why: string): (r: Decision)
    ensures r.ok <==> MountableInfo(infos)
    ensures r.ok ==> r.why == why
    ensures !r.ok ==> r.why == MountBlockers(infos)[0]
  {
    if ToString(Get(infos, kId)) == "" then Decision(false, kBlockIdEmpty)
    else if ToBool(Get(infos, kHintIgnore)) then Decision(false, kDeviceIgnored)
    else if ToString(Get(infos, kMountPoint)) != "" then
      Decision(false, kAlreadyMountedAt + ToString(Get(infos, kMountPoint)))
    else if !ToBool(Get(infos, kHasFileSystem)) then Decision(false, kNoFileSystem)
    else if ToBool(Get(infos, kIsEncrypted)) then Decision(false, kEncrypted)
    else Decision(true, why)
  }

  /**
   * DeviceHelper::isEjectableBlockDev(const QVariantMap &, QString &why):
   * true exactly for a removable device or an ejectable optical one, leaving
   * `why` untouched; otherwise false with the fixed reason.
   */
  function IsEjectableBlockDev(infos: DeviceMap, why: string): (r: Decision)
    ensures r.ok <==> ToBool(Get(infos, kRemovable))
                      || (ToBool(Get(infos, kOptical)) && ToBool(Get(infos, kEjectable)))
    ensures r.ok ==> r.why == why
    ensures !r.ok ==> r.why == kNotEjectable
  {
    if ToBool(Get(infos, kRemovable)) then Decision(true, why)
    else if ToBool(Get(infos, kOptical)) && ToBool(Get(infos, kEjectable)) then Decision(true, why)
    else Decision(false, kNotEjectable)
  }

  /** An empty property map is neither mountable (its id is empty) nor ejectable. */
  lemma EmptyMapPolicy(why: string)
    ensures IsMountableBlockDev(map[], why) == Decision(false, kBlockIdEmpty)
    ensures IsEjectableBlockDev(map[], why) == Decision(false, kNotEjectable)
  {
  }

  /**
   * A device with a mount point is refused with a reason naming that mount
   * point, unless an empty id or the ignore hint is reported first.
   */
  lemma AlreadyMountedReason(infos: DeviceMap, why: string)
    requires ToString(Get(infos, kId)) != "" && !ToBool(Get(infos, kHintIgnore))
    requires ToString(Get(infos, kMountPoint)) != ""
    ensures IsMountableBlockDev(infos, why)
         == Decision(false, "device is already mounted at: " + ToString(Get(infos, kMountPoint)))
  {
  }

  /** The values BlockInfo holds under the keys the mount policy reads. */
  lemma MountFields(d: BlockDevice, sizeLabel: U64 -> string)
    ensures var r := BlockInfo(d, sizeLabel);
      && Get(r, kId) == Str(d.path) && Get(r, kHintIgnore) == Bool(d.hintIgnore)
      && Get(r, kMountPoint) == Str(d.mountPoint) && Get(r, kHasFileSystem) == Bool(d.hasFileSystem)
      && Get(r, kIsEncrypted) == Bool(d.isEncrypted)
  {
    BlockInfoField(d, sizeLabel, kId);
    BlockInfoField(d, sizeLabel, kHintIgnore);
    BlockInfoField(d, sizeLabel, kMountPoint);
    BlockInfoField(d, sizeLabel, kHasFileSystem);
    BlockInfoField(d, sizeLabel, kIsEncrypted);
  }

  /** The values BlockInfo holds under the keys the eject policy reads. */
  lemma EjectFields(d: BlockDevice, sizeLabel: U64 -> string)
    ensures var r := BlockInfo(d, sizeLabel);
      && Get(r, kRemovable) == Bool(d.removable) && Get(r, kOptical) == Bool(d.optical)
      && Get(r, kEjectable) == Bool(d.ejectable)
  {
    BlockInfoField(d, sizeLabel, kRemovable);
    BlockInfoField(d, sizeLabel, kOptical);
    BlockInfoField(d, sizeLabel, kEjectable);
  }

  /** readOpticalInfo never touches the keys the policies read. */
  lemma OverlayKeepsPolicy(datas: DeviceMap, s: Store, why: string)
    ensures IsMountableBlockDev(OpticalOverlay(datas, s), why) == IsMountableBlockDev(datas, why)
    ensures IsEjectableBlockDev(OpticalOverlay(datas, s), why) == IsEjectableBlockDev(datas, why)
  {
    var r := OpticalOverlay(datas, s);
    if OpticalTag(datas) in Keys(s, kBurnAttribute) {
      assert Get(r, kId) == Get(datas, kId);
      assert Get(r, kHintIgnore) == Get(datas, kHintIgnore);
      assert Get(r, kMountPoint) == Get(datas, kMountPoint);
      assert Get(r, kHasFileSystem) == Get(datas, kHasFileSystem);
      assert Get(r, kIsEncrypted) == Get(datas, kIsEncrypted);
      assert Get(r, kRemovable) == Get(datas, kRemovable);
      assert Get(r, kOptical) == Get(datas, kOptical);
      assert Get(r, kEjectable) == Get(datas, kEjectable);
      PolicyCongruence(r, datas, why);
    } else {
      OverlayWithoutRecord(datas, s);
    }
  }

  /** The policies read only their eight keys: maps agreeing on them get the same decisions. */
  lemma PolicyCongruence(a: DeviceMap, b: DeviceMap, why: string)
    requires Get(a, kId) == Get(b, kId) && Get(a, kHintIgnore) == Get(b, kHintIgnore)
    requires Get(a, kMountPoint) == Get(b, kMountPoint) && Get(a, kHasFileSystem) == Get(b, kHasFileSystem)
    requires Get(a, kIsEncrypted) == Get(b, kIsEncrypted) && Get(a, kRemovable) == Get(b, kRemovable)
    requires Get(a, kOptical) == Get(b, kOptical) && Get(a, kEjectable) == Get(b, kEjectable)
    ensures IsMountableBlockDev(a, why) == IsMountableBlockDev(b, why)
    ensures IsEjectableBlockDev(a, why) == IsEjectableBlockDev(b, why)
  {
  }

  /** The optical cache never changes what the policies decide on a loaded block device. */
  lemma OverlayKeepsPolicyKeys(d: BlockDevice, sizeLabel: U64 -> string, s: Store, why: string)
    ensures IsMountableBlockDev(LoadedBlockInfo(d, sizeLabel, s), why) == IsMountableBlockDev(BlockInfo(d, sizeLabel), why)
    ensures IsEjectableBlockDev(LoadedBlockInfo(d, sizeLabel, s), why) == IsEjectableBlockDev(BlockInfo(d, sizeLabel), why)
  {
    OverlayKeepsPolicy(BlockInfo(d, sizeLabel), s, why);
  }

  /** The mount policy on a loaded block device, read off the device itself. */
  lemma BlockInfoMountPolicy(d: BlockDevice, sizeLabel: U64 -> string, why: string)
    ensures IsMountableBlockDev(BlockInfo(d, sizeLabel), why).ok
        <==> d.path != "" && !d.hintIgnore && d.mountPoint == "" && d.hasFileSystem && !d.isEncrypted
  {
    MountFields(d, sizeLabel);
  }

  /** The eject policy on a loaded block device, read off the device itself. */
  lemma BlockInfoEjectPolicy(d: BlockDevice, sizeLabel: U64 -> string, why: string)
    ensures IsEjectableBlockDev(BlockInfo(d, sizeLabel), why).ok
        <==> d.removable || (d.optical && d.ejectable)
  {
    EjectFields(d, sizeLabel);
  }

  /**
   * DeviceHelper::isMountableBlockDev(const BlockDevPtr &, QString &why): a
   * null device is refused without loading anything; otherwise the map
   * policy decides on the loaded properties.
   */
  method IsMountableBlockDevice(dev: Option<BlockDevice>, settings: Settings, sizeLabel: U64 -> string, why: string)
    returns (r: Decision)
    ensures dev.None? ==> r == Decision(false, kBlockDeviceNotValid)
    ensures dev.Some? ==> r == IsMountableBlockDev(BlockInfo(dev.value, sizeLabel), why)
    ensures dev.Some? ==> (r.ok <==> && dev.value.path != "" && !dev.value.hintIgnore
                                     && dev.value.mountPoint == "" && dev.value.hasFileSystem
                                     && !dev.value.isEncrypted)
  {
    if dev.None? {
      return Decision(false, kBlockDeviceNotValid);
    }
    var datas := LoadBlockInfo(dev, settings, sizeLabel);
    r := IsMountableBlockDev(datas, why);
    OverlayKeepsPolicyKeys(dev.value, sizeLabel, settings.groups, why);
    BlockInfoMountPolicy(dev.value, sizeLabel, why);
  }

  /**
   * DeviceHelper::isEjectableBlockDev(const BlockDevPtr &, QString &why): a
   * null device is refused without loading anything; otherwise the map
   * policy decides on the loaded properties.
   */
  method IsEjectableBlockDevice(dev: Option<BlockDevice>, settings: Settings, sizeLabel: U64 -> string, why: string)
    returns (r: Decision)
    ensures dev.None? ==> r == Decision(false, kDeviceNotValid)
    ensures dev.Some? ==> r == IsEjectableBlockDev(BlockInfo(dev.value, sizeLabel), why)
    ensures dev.Some? ==> (r.ok <==> dev.value.removable || (dev.value.optical && dev.value.ejectable))
  {
    if dev.None? {
      return Decision(false, kDeviceNotValid);
    }
    var datas := LoadBlockInfo(dev, settings, sizeLabel);
    r := IsEjectableBlockDev(datas, why);
    OverlayKeepsPolicyKeys(dev.value, sizeLabel, settings.groups, why);
    BlockInfoEjectPolicy(dev.value, sizeLabel, why);
  }

  /** DeviceHelper::isMountableBlockDev(const QString &id, QString &why). */
  method IsMountableBlockDevById(devices: map<string, BlockDevice>, id: string, settings: Settings,
                                 sizeLabel: U64 -> string, why: string)
    returns (r: Decision)
    ensures id !in devices ==> r == Decision(false, kBlockDeviceNotValid)
    ensures id in devices ==> r == IsMountableBlockDev(BlockInfo(devices[id], sizeLabel), why)
  {
    r := IsMountableBlockDevice(CreateDevice(devices, id), settings, sizeLabel, why);
  }

  /** DeviceHelper::isEjectableBlockDev(const QString &id, QString &why). */
  method IsEjectableBlockDevById(devices: map<string, BlockDevice>, id: string, settings: Settings,
                                 sizeLabel: U64 -> string, why: string)
    returns (r: Decision)
    ensures id !in devices ==> r == Decision(false, kDeviceNotValid)
    ensures id in devices ==> r == IsEjectableBlockDev(BlockInfo(devices[id], sizeLabel), why)
  {
    r := IsEjectableBlockDevice(CreateDevice(devices, id), settings, sizeLabel, why);
  }

  // ---------------------------------------------------------------------
  // Property translation

  /** The eighteen run-time mutable properties castFromDFMMountProperty knows. */
  const MutableProperties: set<Property> :=
    {BlockSize, BlockIDUUID, BlockIDType, BlockIDVersion, BlockIDLabel, DriveMedia, BlockReadOnly,
     DriveMediaRemovable, DriveOptical, DriveOpticalBlank, DriveMediaAvailable, DriveCanPowerOff,
     DriveEjectable, BlockHintIgnore, BlockCryptoBackingDevice, FileSystemMountPoint,
     DriveMediaCompatibility, EncryptedCleartextDevice}

  /**
   * DeviceHelper::castFromDFMMountProperty: the map key for a mutable
   * property; `None` stands for the empty string returned for any other.
   */
  function CastFromDFMMountProperty(p: Property): (r: Option<Key>)
    ensures r.Some? <==> p in MutableProperties
  {
    match p
    case BlockSize => Some(kSizeTotal)
    case BlockIDUUID => Some(kUUID)
    case BlockIDType => Some(kFileSystem)
    case BlockIDVersion => Some(kFsVersion)
    case BlockIDLabel => Some(kIdLabel)
    case DriveMedia => Some(kMedia)
    case BlockReadOnly => Some(kReadOnly)
    case DriveMediaRemovable => Some(kMediaRemovable)
    case DriveOptical => Some(kOptical)
    case DriveOpticalBlank => Some(kOpticalBlank)
    case DriveMediaAvailable => Some(kMediaAvailable)
    case DriveCanPowerOff => Some(kCanPowerOff)
    case DriveEjectable => Some(kEjectable)
    case BlockHintIgnore => Some(kHintIgnore)
    case BlockCryptoBackingDevice => Some(kCryptoBackingDevice)
    case FileSystemMountPoint => Some(kMountPoints)
    case DriveMediaCompatibility => Some(kMediaCompatibility)
    case EncryptedCleartextDevice => Some(kCleartextDevice)
    case _ => None
  }

  /** No two mutable properties are translated to the same key. */
  lemma CastInjective(p: Property, q: Property)
    requires p in MutableProperties && q in MutableProperties
    requires CastFromDFMMountProperty(p) == CastFromDFMMountProperty(q)
    ensures p == q
  {
  }

}
