/**
 * Names shared by the device layer: the property-map keys of
 * GlobalServerDefines::DeviceProperty, the dfm-mount block-device
 * properties that can be queried or change at run time, and the MBR
 * partition types a block device reports.
 *
 * The header declaring the key strings, dfm-base/dbusservice/global_server_defines.h,
 * is not part of this model: the keys are an enumeration here, so two
 * different constants are two different keys, as the header's distinct
 * strings make them.
 */
module DeviceProperty {
  import opened Variant

  /** The keys of a device property map (the constants of GlobalServerDefines::DeviceProperty). */
  datatype Key =
    | kId
    | kMountPoint
    | kFileSystem
    | kSizeTotal
    | kSizeUsed
    | kSizeFree
    | kUUID
    | kFsVersion
    | kDevice
    | kIdLabel
    | kMedia
    | kReadOnly
    | kRemovable
    | kMediaRemovable
    | kOptical
    | kOpticalBlank
    | kMediaAvailable
    | kCanPowerOff
    | kEjectable
    | kIsEncrypted
    | kIsLoopDevice
    | kHasFileSystem
    | kHasPartitionTable
    | kHasPartition
    | kHintSystem
    | kHintIgnore
    | kCryptoBackingDevice
    | kDrive
    | kMountPoints
    | kMediaCompatibility
    | kOpticalDrive
    | kCleartextDevice
    | kConnectionBus
    | kDisplayName
    | kHasExtendedPatition
    | kDeviceIcon
    | kOpticalMediaType
    | kOpticalWriteSpeed

  /** A QVariantMap keyed by device properties. */
  type DeviceMap = map<Key, Value>

  /** The dfm-mount property identifiers the device helper names. */
  datatype Property =
    | BlockSize
    | BlockIDUUID
    | BlockIDType
    | BlockIDVersion
    | BlockIDLabel
    | DriveMedia
    | BlockReadOnly
    | DriveMediaRemovable
    | DriveOptical
    | DriveOpticalBlank
    | DriveMediaAvailable
    | DriveCanPowerOff
    | DriveEjectable
    | BlockHintIgnore
    | BlockCryptoBackingDevice
    | FileSystemMountPoint
    | DriveMediaCompatibility
    | EncryptedCleartextDevice
    | DriveConnectionBus
      /** any other member of dfm-mount's Property enumeration */
    | OtherProperty(name: string)

  /** The MBR partition types of dfm-mount's PartitionType that mark an extended partition, and the rest. */
  datatype PartitionType =
    | MbrExtended
    | MbrWin95_Extended_LBA
    | MbrLinux_extended
    | MbrDRDOS_sec_extend
    | MbrMultiuser_DOS_extend
      /**
       * any other partition type, by its code; the five extended types above
       * are only ever represented by their own constructors, never by their
       * codes here
       */
    | OtherPartition(code: int)
}
