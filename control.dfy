/** The per-tick control rule `test`: every held key among A, S, D, F (checked in that
    order) overwrites every external impulse with the constant thrust and the torque of
    that thrust about a lever arm made of a body's translation plus a key-specific offset. */
module Control {
  import opened Vectors

  datatype Key = KeyA | KeyS | KeyD | KeyF

  /** The `ExternalImpulse` component of a body: a linear impulse and a torque impulse. */
  datatype ExternalImpulse = ExternalImpulse(impulse: Vec3, torqueImpulse: Vec3)

  /** The thrust applied by every key. */
  const ForceVector: Vec3 := Triple(0.0, 0.00004, 0.0)

  /** The order in which the program tests the keys. */
  const KeyOrder: seq<Key> := [KeyA, KeyS, KeyD, KeyF]

  /** The horizontal offset each key adds to the translation. */
  function Offset(key: Key): Vec3
  {
    match key
    case KeyA => Triple(0.08, 0.0, 0.08)
    case KeyS => Triple(-0.08, 0.0, 0.08)
    case KeyD => Triple(0.08, 0.0, -0.08)
    case KeyF => Triple(-0.08, 0.0, -0.08)
  }

  /** The lever arm: the translation with the offset added to x and z, minus the origin. */
  function LeverArm(translation: Vec3, key: Key): Vec3
  {
    Sub(Triple(translation.x + Offset(key).x, translation.y, translation.z + Offset(key).z), Zero)
  }

  /** The torque impulse written for `key` while visiting a body with this translation. */
  function Torque(translation: Vec3, key: Key): Vec3
  {
    Cross(LeverArm(translation, key), ForceVector)
  }

  /** With thrust (0, f, 0) the torque is `(-(z + oz) f, 0, (x + ox) f)`: the height of
      the body plays no part, and the torque lies in the horizontal plane. */
  lemma TorqueFormula(translation: Vec3, key: Key)
    ensures Torque(translation, key) ==
              Triple(-(translation.z + Offset(key).z) * 0.00004, 0.0, (translation.x + Offset(key).x) * 0.00004)
  {
  }

  /** The effect of one held key: each impulse is overwritten once per transform, so it
      ends with the thrust and the torque for the LAST transform; with no transform
      nothing is written. */
  function ApplyKey(impulses: seq<ExternalImpulse>, key: Key, translations: seq<Vec3>): seq<ExternalImpulse>
  {
    if |translations| == 0 then impulses
    else seq(|impulses|, _ => ExternalImpulse(ForceVector, Torque(translations[|translations| - 1], key)))
  }

  /** `key`'s effect if it is held, nothing otherwise. */
  function ApplyIfPressed(impulses: seq<ExternalImpulse>, pressed: set<Key>, key: Key, translations: seq<Vec3>): seq<ExternalImpulse>
  {
    if key in pressed then ApplyKey(impulses, key, translations) else impulses
  }

  /** One tick: the four keys in the order A, S, D, F. */
  function Tick(impulses: seq<ExternalImpulse>, pressed: set<Key>, translations: seq<Vec3>): seq<ExternalImpulse>
  {
    var afterA := ApplyIfPressed(impulses, pressed, KeyA, translations);
    var afterS := ApplyIfPressed(afterA, pressed, KeyS, translations);
    var afterD := ApplyIfPressed(afterS, pressed, KeyD, translations);
    ApplyIfPressed(afterD, pressed, KeyF, translations)
  }

  /** The held key tested last, when at least one is held. */
  function LastPressed(pressed: set<Key>): Key
    requires pressed != {}
  {
    if KeyF in pressed then KeyF
    else if KeyD in pressed then KeyD
    else if KeyS in pressed then KeyS
    else KeyA
  }

  /** With a key held and at least one transform, every impulse ends as the thrust and the
      torque of the last held key in A, S, D, F order, for the last transform visited;
      the earlier keys' values are overwritten, never added. */
  lemma TickLastKeyWins(impulses: seq<ExternalImpulse>, pressed: set<Key>, translations: seq<Vec3>)
    requires pressed != {} && |translations| > 0
    ensures |Tick(impulses, pressed, translations)| == |impulses|
    ensures forall i :: 0 <= i < |impulses| ==>
              Tick(impulses, pressed, translations)[i] ==
                ExternalImpulse(ForceVector, Torque(translations[|translations| - 1], LastPressed(pressed)))
  {
    var k :| k in pressed;
    assert k == KeyA || k == KeyS || k == KeyD || k == KeyF;
  }

  /** With a key held and a transform present the outcome does not depend on the old
      impulses at all: no accumulation from earlier ticks. */
  lemma TickForgetsOldImpulses(a: seq<ExternalImpulse>, b: seq<ExternalImpulse>, pressed: set<Key>, translations: seq<Vec3>)
    requires pressed != {} && |translations| > 0 && |a| == |b|
    ensures Tick(a, pressed, translations) == Tick(b, pressed, translations)
  {
    TickLastKeyWins(a, pressed, translations);
    TickLastKeyWins(b, pressed, translations);
  }

  /** A tick with no key held, or with no transform to visit, leaves every impulse as it was. */
  lemma TickWithoutEffect(impulses: seq<ExternalImpulse>, pressed: set<Key>, translations: seq<Vec3>)
    requires pressed == {} || |translations| == 0
    ensures Tick(impulses, pressed, translations) == impulses
  {
  }

  /** The nested loops of one key's branch: for every impulse, for every transform, write
      the thrust and then the torque computed from that transform. */
  method ApplyKeyInPlace(impulses: array<ExternalImpulse>, key: Key, translations: seq<Vec3>)
    modifies impulses
    ensures impulses[..] == ApplyKey(old(impulses[..]), key, translations)
  {
    var j := 0;
    while j < impulses.Length
      invariant 0 <= j <= impulses.Length
      invariant forall m :: 0 <= m < j ==>
                  impulses[m] == ApplyKey(old(impulses[..]), key, translations)[m]
      invariant forall m :: j <= m < impulses.Length ==> impulses[m] == old(impulses[m])
    {
      ghost var before := impulses[..];
      var k := 0;
      while k < |translations|
        invariant 0 <= k <= |translations|
        invariant forall m :: 0 <= m < impulses.Length && m != j ==> impulses[m] == before[m]
        invariant k == 0 ==> impulses[j] == before[j]
        invariant k > 0 ==> impulses[j] == ExternalImpulse(ForceVector, Torque(translations[k - 1], key))
      {
        var translationFromObject := translations[k];
        var rapierVector := LeverArm(translationFromObject, key);
        var rapierPoint := Cross(rapierVector, ForceVector);
        impulses[j] := impulses[j].(impulse := ForceVector);
        impulses[j] := impulses[j].(torqueImpulse := rapierPoint);
        k := k + 1;
      }
      j := j + 1;
    }
  }

  /** The system `test`, run once per frame. */
  method RunTick(impulses: array<ExternalImpulse>, pressed: set<Key>, translations: seq<Vec3>)
    modifies impulses
    ensures impulses[..] == Tick(old(impulses[..]), pressed, translations)
  {
    if KeyA in pressed {
      ApplyKeyInPlace(impulses, KeyA, translations);
    }
    if KeyS in pressed {
      ApplyKeyInPlace(impulses, KeyS, translations);
    }
    if KeyD in pressed {
      ApplyKeyInPlace(impulses, KeyD, translations);
    }
    if KeyF in pressed {
      ApplyKeyInPlace(impulses, KeyF, translations);
    }
  }
}
