/** Photos of an animal (the `animal_images` table) and the service that reads, creates,
    partially updates and deletes them. */
module AnimalImageServices {
  import opened Common
  import Table

  /** One stored image. Its key is a store-assigned 32-bit integer. */
  datatype AnimalImage = AnimalImage(
    animalImageId: Int32,
    imageUrl: string,
    uploadDate: DateTime,
    imageAlternativeText: Option<string>,
    imageDescription: Option<string>,
    isMainImage: bool,
    imageIsVerified: bool,
    animalId: Uuid)

  /** The primary key. */
  function AnimalImageKey(img: AnimalImage): Int32 {
    img.animalImageId
  }

  /** The one data annotation of `AnimalImage`: the URL is required. */
  predicate ValidAnimalImage(img: AnimalImage) {
    Required(img.imageUrl)
  }

  /** The body of a create request. */
  datatype AnimalImageCreateDto = AnimalImageCreateDto(
    imageUrl: string,
    imageAlternativeText: Option<string>,
    imageDescription: Option<string>,
    isMainImage: Option<bool>,
    animalId: Uuid)

  /** The body of an update request: every field may be left out. */
  datatype AnimalImageUpdateDto = AnimalImageUpdateDto(
    imageUrl: Option<string>,
    imageAlternativeText: Option<string>,
    imageDescription: Option<string>,
    isMainImage: Option<bool>,
    imageIsVerified: Option<bool>)

  /** What the reads return for one image. */
  datatype AnimalImageReadDto = AnimalImageReadDto(
    animalImageId: Int32,
    imageUrl: string,
    uploadDate: DateTime,
    imageAlternativeText: Option<string>,
    imageDescription: Option<string>,
    isMainImage: bool,
    imageIsVerified: bool,
    animalId: Uuid)

  /** The image a read DTO describes. */
  function FromReadDto(d: AnimalImageReadDto): AnimalImage {
    AnimalImage(d.animalImageId, d.imageUrl, d.uploadDate, d.imageAlternativeText,
      d.imageDescription, d.isMainImage, d.imageIsVerified, d.animalId)
  }

  /** `MapToReadDto`: a projection that loses nothing. */
  function MapToReadDto(img: AnimalImage): (d: AnimalImageReadDto)
    ensures FromReadDto(d) == img
  {
    AnimalImageReadDto(img.animalImageId, img.imageUrl, img.uploadDate, img.imageAlternativeText,
      img.imageDescription, img.isMainImage, img.imageIsVerified, img.animalId)
  }

  /** The row a create request inserts under the store-assigned key `id` at time `now`:
      a main image only when the request says so, never verified. */
  function NewAnimalImage(id: Int32, dto: AnimalImageCreateDto, now: DateTime): (img: AnimalImage)
    ensures img.animalImageId == id && img.animalId == dto.animalId && img.uploadDate == now
    ensures img.imageUrl == dto.imageUrl
    ensures img.isMainImage <==> dto.isMainImage == Some(true)
    ensures !img.imageIsVerified
    ensures ValidAnimalImage(img) <==> Required(dto.imageUrl)
  {
    AnimalImage(id, dto.imageUrl, now, dto.imageAlternativeText, dto.imageDescription,
      dto.isMainImage.GetOr(false), false, dto.animalId)
  }

  /** The effect of an update request: each supplied field overwrites. Unlike the other
      entities, an image has no update date, so the result does not depend on the clock. */
  function MergeAnimalImage(img: AnimalImage, dto: AnimalImageUpdateDto): (m: AnimalImage)
    ensures m.animalImageId == img.animalImageId && m.animalId == img.animalId
    ensures m.uploadDate == img.uploadDate
  {
    img.(
      imageUrl := Patch(img.imageUrl, dto.imageUrl),
      imageAlternativeText := PatchNullable(img.imageAlternativeText, dto.imageAlternativeText),
      imageDescription := PatchNullable(img.imageDescription, dto.imageDescription),
      isMainImage := Patch(img.isMainImage, dto.isMainImage),
      imageIsVerified := Patch(img.imageIsVerified, dto.imageIsVerified))
  }

  /** An update request that supplies nothing. */
  const NoAnimalImageChanges: AnimalImageUpdateDto := AnimalImageUpdateDto(None, None, None, None, None)

  /** An empty update leaves the image exactly as it was. */
  lemma MergeAnimalImageNoChanges(img: AnimalImage)
    ensures MergeAnimalImage(img, NoAnimalImageChanges) == img
  {
  }

  /** Sending the same update twice has the effect of sending it once. */
  lemma MergeAnimalImageIdempotent(img: AnimalImage, dto: AnimalImageUpdateDto)
    ensures MergeAnimalImage(MergeAnimalImage(img, dto), dto) == MergeAnimalImage(img, dto)
  {
  }

  /** An update keeps a valid image valid unless it supplies a blank URL. */
  lemma MergeAnimalImageKeepsValid(img: AnimalImage, dto: AnimalImageUpdateDto)
    requires ValidAnimalImage(img)
    ensures ValidAnimalImage(MergeAnimalImage(img, dto)) <==>
              dto.imageUrl.None? || Required(dto.imageUrl.value)
  {
  }

  /** The filter of `GetImagesByAnimalIdAsync`. */
  function OfAnimal(animalId: Uuid): AnimalImage -> bool {
    (img: AnimalImage) => img.animalId == animalId
  }

  /** The same filter, read off an image's read DTO. */
  function ReadDtoOfAnimal(animalId: Uuid): AnimalImageReadDto -> bool {
    (d: AnimalImageReadDto) => d.animalId == animalId
  }

  class AnimalImageService {
    /** The `animal_images` table, in table order. */
    var images: seq<AnimalImage>

    ghost predicate Valid()
      reads this
    {
      Table.KeysUnique(images, AnimalImageKey)
    }

    constructor (initial: seq<AnimalImage>)
      requires Table.KeysUnique(initial, AnimalImageKey)
      ensures Valid() && images == initial
    {
      images := initial;
    }

    /** `GetAllAnimalImagesAsync`: one read DTO per stored image, in table order. */
    function GetAllAnimalImages(): (all: seq<AnimalImageReadDto>)
      reads this
      ensures |all| == |images|
      ensures forall i :: 0 <= i < |images| ==> FromReadDto(all[i]) == images[i]
    {
      Table.MapRows(images, MapToReadDto)
    }

    /** `GetImagesByAnimalIdAsync`: exactly the images of `animalId`, in table order. */
    function GetImagesByAnimalId(animalId: Uuid): (found: seq<AnimalImageReadDto>)
      reads this
      ensures forall i :: 0 <= i < |found| ==> found[i].animalId == animalId && FromReadDto(found[i]) in images
      ensures forall i :: 0 <= i < |images| && images[i].animalId == animalId ==> MapToReadDto(images[i]) in found
    {
      var rows := Table.Filter(images, OfAnimal(animalId));
      assert forall i :: 0 <= i < |images| && images[i].animalId == animalId ==>
        exists j :: 0 <= j < |rows| && rows[j] == images[i];
      Table.MapRows(rows, MapToReadDto)
    }

    /** An animal's listing is the full listing filtered to that animal: it keeps table order
        and holds each of the animal's image DTOs exactly as often as the full listing does. */
    lemma ImagesByAnimalFilterAll(animalId: Uuid, d: AnimalImageReadDto)
      ensures GetImagesByAnimalId(animalId) == Table.Filter(GetAllAnimalImages(), ReadDtoOfAnimal(animalId))
      ensures multiset(GetImagesByAnimalId(animalId))[d] ==
                if d.animalId == animalId then multiset(GetAllAnimalImages())[d] else 0
    {
      Table.SelectThenWhere(images, OfAnimal(animalId), MapToReadDto, ReadDtoOfAnimal(animalId));
      Table.FilterCount(GetAllAnimalImages(), ReadDtoOfAnimal(animalId), d);
    }

    /** `GetAnimalImageByIdAsync`: null exactly when no image has the id, otherwise that image. */
    function GetAnimalImageById(animalImageId: Int32): (found: Option<AnimalImageReadDto>)
      reads this
      ensures found.None? <==> !Table.HasKey(images, AnimalImageKey, animalImageId)
      ensures found.Some? ==> FromReadDto(found.value) in images && found.value.animalImageId == animalImageId
    {
      match Table.Find(images, AnimalImageKey, animalImageId)
      case None => None
      case Some(img) => Some(MapToReadDto(img))
    }

    /** `CreateAnimalImageAsync`: appends the new image under the fresh key `newId`; it is then
        found by its key and listed last among its animal's images. */
    method CreateAnimalImage(dto: AnimalImageCreateDto, newId: Int32, now: DateTime) returns (created: AnimalImageReadDto)
      requires Valid()
      requires !Table.HasKey(images, AnimalImageKey, newId)
      modifies this
      ensures Valid()
      ensures images == old(images) + [NewAnimalImage(newId, dto, now)]
      ensures created == MapToReadDto(NewAnimalImage(newId, dto, now))
      ensures GetAnimalImageById(newId) == Some(created)
      ensures forall k :: k != newId ==> GetAnimalImageById(k) == old(GetAnimalImageById(k))
      ensures forall a :: GetImagesByAnimalId(a) ==
                old(GetImagesByAnimalId(a)) + (if a == dto.animalId then [created] else [])
    {
      var image := NewAnimalImage(newId, dto, now);
      Table.AppendFresh(images, AnimalImageKey, image);
      forall a {
        Table.SelectWhereAppend(images, OfAnimal(a), MapToReadDto, image);
      }
      images := images + [image];
      created := MapToReadDto(image);
    }

    /** `UpdateAnimalImageAsync`: false, with nothing changed, when the id is absent; otherwise
        the image is overwritten field by field with what the DTO supplies. */
    method UpdateAnimalImage(animalImageId: Int32, dto: AnimalImageUpdateDto) returns (found: bool)
      requires Valid()
      modifies this
      ensures Valid()
      ensures found == Table.HasKey(old(images), AnimalImageKey, animalImageId)
      ensures !found ==> images == old(images)
      ensures found ==>
        var i := Table.IndexOf(old(images), AnimalImageKey, animalImageId).value;
        images == old(images)[i := MergeAnimalImage(old(images)[i], dto)]
      ensures found ==>
        GetAnimalImageById(animalImageId) ==
          Some(MapToReadDto(MergeAnimalImage(old(Table.Find(images, AnimalImageKey, animalImageId)).value, dto)))
      ensures forall k :: k != animalImageId ==> GetAnimalImageById(k) == old(GetAnimalImageById(k))
    {
      var index := Table.IndexOf(images, AnimalImageKey, animalImageId);
      if index.None? {
        return false;
      }
      var i := index.value;
      var image := MergeAnimalImage(images[i], dto);
      Table.ReplaceKeepingKey(images, AnimalImageKey, i, image);
      images := images[i := image];
      return true;
    }

    /** `DeleteAnimalImageAsync`: false, with nothing changed, when the id is absent; otherwise
        exactly that image is removed. */
    method DeleteAnimalImage(animalImageId: Int32) returns (found: bool)
      requires Valid()
      modifies this
      ensures Valid()
      ensures found == Table.HasKey(old(images), AnimalImageKey, animalImageId)
      ensures !found ==> images == old(images)
      ensures found ==>
        var i := Table.IndexOf(old(images), AnimalImageKey, animalImageId).value;
        images == old(images)[..i] + old(images)[i + 1..]
      ensures GetAnimalImageById(animalImageId).None?
      ensures forall k :: k != animalImageId ==> GetAnimalImageById(k) == old(GetAnimalImageById(k))
    {
      var index := Table.IndexOf(images, AnimalImageKey, animalImageId);
      if index.None? {
        return false;
      }
      var i := index.value;
      Table.RemoveAt(images, AnimalImageKey, i);
      images := images[..i] + images[i + 1..];
      return true;
    }
  }
}
