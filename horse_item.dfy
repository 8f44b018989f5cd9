/** An item a horse can wear (part2 models/HorseItem.java). Every field is final in the
    source, so an item is a value. */
module HorseItems {

  const EquipmentType: string := "Equipment"
  const AccessoryType: string := "Accessory"

  datatype HorseItem = HorseItem(
    name: string,
    itemType: string,
    speedModifier: real,
    enduranceModifier: real,
    confidenceModifier: real,
    description: string)

  /** An item whose three multipliers are all 1.0 changes no product it enters. */
  predicate IsNeutral(item: HorseItem) {
    item.speedModifier == 1.0 && item.enduranceModifier == 1.0 && item.confidenceModifier == 1.0
  }

  /** The six-argument constructor (equipment): every argument is stored as given, and
      the getters hand them back unchanged. */
  function NewEquipment(name: string, itemType: string, speedModifier: real,
                        enduranceModifier: real, confidenceModifier: real,
                        description: string): (item: HorseItem)
    ensures item.name == name && item.itemType == itemType && item.description == description
    ensures item.speedModifier == speedModifier && item.enduranceModifier == enduranceModifier
    ensures item.confidenceModifier == confidenceModifier
  {
    HorseItem(name, itemType, speedModifier, enduranceModifier, confidenceModifier, description)
  }

  /** The three-argument constructor (accessory): name, type and description as given,
      and neutral multipliers. */
  function NewAccessory(name: string, itemType: string, description: string): (item: HorseItem)
    ensures item.name == name && item.itemType == itemType && item.description == description
    ensures IsNeutral(item)
  {
    HorseItem(name, itemType, 1.0, 1.0, 1.0, description)
  }

  /** The accessory constructor is the equipment constructor with all multipliers 1.0,
      and an item built either way is neutral exactly when its multipliers are 1.0. */
  lemma AccessoryIsNeutralEquipment(name: string, itemType: string, description: string)
    ensures NewAccessory(name, itemType, description)
         == NewEquipment(name, itemType, 1.0, 1.0, 1.0, description)
  {
  }
}
