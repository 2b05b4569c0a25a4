/**
 * The process-wide device table (taichi/backends/device.cpp): a fixed array
 * of `taichi_max_num_devices` slots and the number of devices registered so
 * far. Registration hands out ids 0, 1, 2, ... in call order and refuses once
 * the table is full. The mutex is not modelled: every call is atomic.
 */
module DeviceRegistry {
  import opened DeviceTypes

  /** The part of a `Device` the registry touches: its `device_id` field. */
  class Device {
    var deviceId: U32

    constructor ()
      ensures deviceId == 0
    {
      deviceId := 0;
    }
  }

  /** `register_device`'s outcome: the id assigned, or the "maximum limit reached" error. */
  datatype RegisterResult = Assigned(id: U32) | LimitReached

  /** The static `taichi_devices` table. */
  class Registry {
    var devices: array<Device?>
    var numRegistered: nat
    /** The devices registered so far, in registration order. */
    ghost var Registered: seq<Device>

    ghost predicate Valid()
      reads this, devices, set i | 0 <= i < |Registered| :: Registered[i]
    {
      && devices.Length == MaxNumDevices
      && numRegistered == |Registered| <= MaxNumDevices
      && (forall i :: 0 <= i < numRegistered ==> devices[i] == Registered[i] && Registered[i].deviceId == i)
      && (forall i :: numRegistered <= i < MaxNumDevices ==> devices[i] == null)
    }

    /** The zero-initialised static table. */
    constructor ()
      ensures Valid() && Registered == [] && fresh(devices)
    {
      devices := new Device?[MaxNumDevices](_ => null);
      numRegistered := 0;
      Registered := [];
    }

    /**
     * `register_device`: stores the device in the next free slot and sets its
     * id to the slot number; when all slots are taken, reports the error and
     * changes nothing. The caller hands over a `unique_ptr`, so the device is
     * not already in the table.
     */
    method RegisterDevice(device: Device) returns (r: RegisterResult)
      requires Valid() && device !in Registered
      modifies this, devices, device
      ensures Valid() && devices == old(devices)
      ensures old(numRegistered) < MaxNumDevices ==>
                && r == Assigned(old(numRegistered))
                && Registered == old(Registered) + [device]
                && device.deviceId == r.id
      ensures old(numRegistered) >= MaxNumDevices ==>
                && r == LimitReached
                && Registered == old(Registered) && numRegistered == old(numRegistered)
                && devices[..] == old(devices[..]) && device.deviceId == old(device.deviceId)
    {
      if numRegistered >= MaxNumDevices {
        return LimitReached;
      }
      device.deviceId := numRegistered;
      devices[numRegistered] := device;
      Registered := Registered + [device];
      r := Assigned(numRegistered);
      numRegistered := numRegistered + 1;
    }

    /** `get_device_by_id`: the device stored in slot `id`, null for a slot not yet filled. */
    method GetDeviceById(id: U32) returns (d: Device?)
      requires Valid() && id < MaxNumDevices
      ensures id < numRegistered ==> d == Registered[id] && d.deviceId == id
      ensures id >= numRegistered ==> d == null
    {
      d := devices[id];
    }
  }

  /** Filling an empty table slot by slot: the k-th registration gets id k, and the 257th is refused. */
  method RegisterInOrder(ds: seq<Device>) returns (reg: Registry, ids: seq<RegisterResult>)
    requires forall i, j :: 0 <= i < j < |ds| ==> ds[i] != ds[j]
    modifies set i | 0 <= i < |ds| :: ds[i]
    ensures reg.Valid() && |ids| == |ds|
    ensures forall k :: 0 <= k < |ds| ==> ids[k] == if k < MaxNumDevices then Assigned(k) else LimitReached
    ensures reg.numRegistered == if |ds| < MaxNumDevices then |ds| else MaxNumDevices
  {
    reg := new Registry();
    ids := [];
    var i := 0;
    while i < |ds|
      invariant 0 <= i <= |ds| && |ids| == i
      invariant reg.Valid() && fresh(reg) && fresh(reg.devices)
      invariant reg.numRegistered == (if i < MaxNumDevices then i else MaxNumDevices)
      invariant forall k :: 0 <= k < reg.numRegistered ==> reg.Registered[k] == ds[k]
      invariant forall k :: 0 <= k < i ==> ids[k] == if k < MaxNumDevices then Assigned(k) else LimitReached
    {
      var r := reg.RegisterDevice(ds[i]);
      ids := ids + [r];
      i := i + 1;
    }
  }
}
